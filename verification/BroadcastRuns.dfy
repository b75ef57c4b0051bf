/**
  Runs from the creation of a broadcast that end with a recipient QUEUED although the
  broadcast is CANCELLED, one for each of the writers that do not look at the broadcast.
*/
module BroadcastRuns {
  import opened Collections
  import opened Broadcasts
  import opened BroadcastCancellation

  /** From creation to one queued recipient. */
  function Sending(id: Identity): seq<Step> {
    [Launch, Load(0, [id]), Store(0), List(0, [id]), QueueNext(0, false, 0, 0)]
  }

  /** The only recipient is queued, with its message and row. */
  function OneQueued(channel: Channel, id: Identity, status: RecipientStatus, b: Status, row: OutboxStatus): World {
    World(
      Broadcast(b, false, false, b == CANCELLED, false), channel,
      map[id := Recipient(status, Some(0), Some(0))], map[0 := Message(id, M_QUEUED)], map[0 := Outbox(id, 0, row)],
      map[0 := Queueing([id], [])], map[], map[])
  }

  /** Prepared as far as p: before and after the recipient is stored. */
  function Launched(channel: Channel, p: map<Uuid, Preparation>): World {
    World(Broadcast(PREPARING, false, false, false, false), channel, map[], map[], map[], p, map[], map[])
  }

  function PendingOne(channel: Channel, id: Identity, p: map<Uuid, Preparation>): World {
    World(Broadcast(RUNNING, false, false, false, false), channel,
          map[id := Recipient(R_PENDING, None, None)], map[], map[], p, map[], map[])
  }

  lemma Loads(channel: Channel, id: Identity)
    ensures Run(Created(false, channel), [Launch, Load(0, [id])]) == Launched(channel, map[0 := Loaded([id])])
  {
    RunSnoc(Created(false, channel), [], Launch);
    RunSnoc(Created(false, channel), [Launch], Load(0, [id]));
    assert [] + [Launch] == [Launch] && [Launch] + [Load(0, [id])] == [Launch, Load(0, [id])];
    assert Apply(Created(false, channel), Launch) == Launched(channel, map[]);
  }

  lemma StoreStep(channel: Channel, id: Identity)
    ensures ApplyPreparation(Launched(channel, map[0 := Loaded([id])]), Store(0)) == PendingOne(channel, id, map[0 := Stored([id])])
  {
    assert Elements([id]) == {id};
    assert Added(map[], [id]) == map[id := Recipient(R_PENDING, None, None)];
  }

  lemma ListStep(channel: Channel, id: Identity)
    ensures ApplyPreparation(PendingOne(channel, id, map[0 := Stored([id])]), List(0, [id])) ==
      PendingOne(channel, id, map[0 := Queueing([id], [id])])
  {
    assert IsPendingList(map[id := Recipient(R_PENDING, None, None)], [id]);
  }

  lemma Stores(channel: Channel, id: Identity)
    ensures Run(Created(false, channel), [Launch, Load(0, [id]), Store(0)]) == PendingOne(channel, id, map[0 := Stored([id])])
  {
    Loads(channel, id);
    RunSnoc(Created(false, channel), [Launch, Load(0, [id])], Store(0));
    assert [Launch, Load(0, [id])] + [Store(0)] == [Launch, Load(0, [id]), Store(0)];
    StoreStep(channel, id);
  }

  lemma Lists(channel: Channel, id: Identity)
    ensures Run(Created(false, channel), [Launch, Load(0, [id]), Store(0), List(0, [id])]) == PendingOne(channel, id, map[0 := Queueing([id], [id])])
  {
    Stores(channel, id);
    RunSnoc(Created(false, channel), [Launch, Load(0, [id]), Store(0)], List(0, [id]));
    assert [Launch, Load(0, [id]), Store(0)] + [List(0, [id])] == [Launch, Load(0, [id]), Store(0), List(0, [id])];
    ListStep(channel, id);
  }

  lemma Queues(channel: Channel, id: Identity)
    ensures ApplyQueue(PendingOne(channel, id, map[0 := Queueing([id], [id])]), 0, false, 0, 0) == OneQueued(channel, id, R_QUEUED, RUNNING, O_PENDING)
  {
    var w := PendingOne(channel, id, map[0 := Queueing([id], [id])]);
    var next := w.(preparations := map[0 := Queueing([id], [])]);
    assert [id][1..] == [];
    assert w.preparations[0 := Queueing([id], [])] == next.preparations;
    assert QueueTransaction(next, id, 0, 0).recipients == map[id := Recipient(R_QUEUED, Some(0), Some(0))];
  }

  lemma QueueStep(channel: Channel, id: Identity)
    ensures ApplyPreparation(PendingOne(channel, id, map[0 := Queueing([id], [id])]), QueueNext(0, false, 0, 0)) ==
      OneQueued(channel, id, R_QUEUED, RUNNING, O_PENDING)
  {
    Queues(channel, id);
  }

  lemma Sends(channel: Channel, id: Identity)
    ensures Run(Created(false, channel), Sending(id)) == OneQueued(channel, id, R_QUEUED, RUNNING, O_PENDING)
  {
    Lists(channel, id);
    QueueStep(channel, id);
    RunSnoc(Created(false, channel), [Launch, Load(0, [id]), Store(0), List(0, [id])], QueueNext(0, false, 0, 0));
    assert [Launch, Load(0, [id]), Store(0), List(0, [id])] + [QueueNext(0, false, 0, 0)] == Sending(id);
  }

  lemma Processes(channel: Channel, id: Identity)
    ensures Run(Created(false, channel), Sending(id) + [Process(id)]) == OneQueued(channel, id, R_PROCESSING, RUNNING, O_PENDING)
  {
    var w := OneQueued(channel, id, R_QUEUED, RUNNING, O_PENDING);
    Sends(channel, id);
    RunSnoc(Created(false, channel), Sending(id), Process(id));
    assert SetStatus(w.recipients, id, R_PROCESSING) == map[id := Recipient(R_PROCESSING, Some(0), Some(0))];
  }

  lemma Claims(channel: Channel, id: Identity, lease: Uuid)
    ensures Run(Created(false, channel), Sending(id) + [Claim(lease, 0)]) == OneQueued(channel, id, R_QUEUED, RUNNING, O_TAKEN(lease))
  {
    var w := OneQueued(channel, id, R_QUEUED, RUNNING, O_PENDING);
    Sends(channel, id);
    RunSnoc(Created(false, channel), Sending(id), Claim(lease, 0));
    assert SetOutbox(w.outboxes, Some(0), Some(O_TAKEN(lease))) == map[0 := Outbox(id, 0, O_TAKEN(lease))];
  }

  /** The broadcast can be cancelled, and the step then queues the recipient. */
  predicate Endangers(w: World, s: Step, id: Identity) {
    Stamped(w.broadcast) && CanCancel(w.broadcast.status) && Requeues(Apply(w, Cancel), s, id)
  }

  lemma DangerShows(channel: Channel, steps: seq<Step>, w: World, s: Step, id: Identity)
    requires Run(Created(false, channel), steps) == w && Endangers(w, s, id)
    ensures var t := Run(Created(false, channel), steps + [Cancel, s]); t.broadcast.status == CANCELLED && Queued(t, id)
  {
    StampedStep(w, Cancel);
    StepQueues(Apply(w, Cancel), s, id);
    OnlyCallsChange(Apply(w, Cancel), s);
    RunSnoc(Created(false, channel), steps, Cancel);
    RunSnoc(Created(false, channel), steps + [Cancel], s);
    assert steps + [Cancel, s] == steps + [Cancel] + [s];
  }

  // --- A delivery that fails for now ---

  lemma ProcessingEndangered(id: Identity, lease: Uuid)
    ensures Endangers(OneQueued(TELEGRAM, id, R_PROCESSING, RUNNING, O_PENDING), Requeue(lease, id), id)
  {}

  /** The delivery fails for now after the cancellation: the recipient is QUEUED in a cancelled broadcast. */
  lemma RequeueAfterCancel(id: Identity, lease: Uuid)
    ensures var w := Run(Created(false, TELEGRAM), Sending(id) + [Process(id)] + [Cancel, Requeue(lease, id)]);
      w.broadcast.status == CANCELLED && Queued(w, id)
  {
    Processes(TELEGRAM, id);
    ProcessingEndangered(id, lease);
    DangerShows(TELEGRAM, Sending(id) + [Process(id)], OneQueued(TELEGRAM, id, R_PROCESSING, RUNNING, O_PENDING), Requeue(lease, id), id);
  }

  // --- A deferral ---

  lemma Pauses(id: Identity, lease: Uuid)
    ensures Run(Created(false, WHATSAPP), Sending(id) + [Claim(lease, 0)] + [Pause]) == OneQueued(WHATSAPP, id, R_QUEUED, PAUSED, O_TAKEN(lease))
  {
    Claims(WHATSAPP, id, lease);
    RunSnoc(Created(false, WHATSAPP), Sending(id) + [Claim(lease, 0)], Pause);
  }

  function Paused(id: Identity, lease: Uuid): World {
    OneQueued(WHATSAPP, id, R_QUEUED, PAUSED, O_TAKEN(lease)).(deferrals := map[lease := id])
  }

  lemma FindsPaused(id: Identity, lease: Uuid)
    ensures Run(Created(false, WHATSAPP), Sending(id) + [Claim(lease, 0)] + [Pause] + [ReadPaused(lease, id)]) == Paused(id, lease)
  {
    Pauses(id, lease);
    RunSnoc(Created(false, WHATSAPP), Sending(id) + [Claim(lease, 0)] + [Pause], ReadPaused(lease, id));
  }

  lemma PausedEndangered(id: Identity, lease: Uuid)
    ensures Endangers(Paused(id, lease), Defer(lease), id)
  {
    CancelRows(Paused(id, lease), id);
  }

  /** The worker read PAUSED before the cancellation and defers after it. */
  lemma DeferralAfterCancel(id: Identity, lease: Uuid)
    ensures var w := Run(Created(false, WHATSAPP),
                         Sending(id) + [Claim(lease, 0)] + [Pause] + [ReadPaused(lease, id)] + [Cancel, Defer(lease)]);
      w.broadcast.status == CANCELLED && Queued(w, id)
  {
    FindsPaused(id, lease);
    PausedEndangered(id, lease);
    DangerShows(WHATSAPP, Sending(id) + [Claim(lease, 0)] + [Pause] + [ReadPaused(lease, id)], Paused(id, lease), Defer(lease), id);
  }

  // --- An operator ---

  lemma RowEndangered(id: Identity)
    ensures Endangers(OneQueued(TELEGRAM, id, R_QUEUED, RUNNING, O_PENDING), RetryRow(0), id)
  {
    var w := OneQueued(TELEGRAM, id, R_QUEUED, RUNNING, O_PENDING);
    assert id in WaitingIds(w.recipients);
    assert OutboxOf(w.recipients, WaitingIds(w.recipients), 0);
  }

  lemma NoWorkerEndangers(id: Identity, other: Identity)
    ensures !AtRisk(OneQueued(TELEGRAM, id, R_QUEUED, RUNNING, O_PENDING), other, false)
  {}

  /**
    Cancelling turns the row of a queued recipient FAILED; an operator who retries that row
    puts the recipient back in the queue, although no worker could have.
  */
  lemma RetryRowAfterCancel(id: Identity)
    ensures var w := Run(Created(false, TELEGRAM), Sending(id) + [Cancel, RetryRow(0)]);
      w.broadcast.status == CANCELLED && Queued(w, id)
    ensures forall other :: !AtRisk(Run(Created(false, TELEGRAM), Sending(id)), other, false)
  {
    Sends(TELEGRAM, id);
    RowEndangered(id);
    forall other ensures !AtRisk(OneQueued(TELEGRAM, id, R_QUEUED, RUNNING, O_PENDING), other, false) {
      NoWorkerEndangers(id, other);
    }
    DangerShows(TELEGRAM, Sending(id), OneQueued(TELEGRAM, id, R_QUEUED, RUNNING, O_PENDING), RetryRow(0), id);
  }

  // --- A retry of the failed recipients ---

  /** A report of failure that leaves message and row alone. */
  const FAILURE := Report(R_FAILED, None, 0, None, false)

  lemma FailStep(channel: Channel, id: Identity)
    ensures ApplyDelivery(OneQueued(channel, id, R_QUEUED, RUNNING, O_PENDING), Deliver(id, FAILURE)) ==
      OneQueued(channel, id, R_FAILED, RUNNING, O_PENDING)
  {
    var w := OneQueued(channel, id, R_QUEUED, RUNNING, O_PENDING);
    assert SetStatus(w.recipients, id, R_FAILED) == map[id := Recipient(R_FAILED, Some(0), Some(0))];
  }

  lemma Fails(channel: Channel, id: Identity)
    ensures Run(Created(false, channel), Sending(id) + [Deliver(id, FAILURE)]) == OneQueued(channel, id, R_FAILED, RUNNING, O_PENDING)
  {
    Sends(channel, id);
    FailStep(channel, id);
    RunSnoc(Created(false, channel), Sending(id), Deliver(id, FAILURE));
  }

  lemma StartsRetry(channel: Channel, id: Identity)
    ensures Run(Created(false, channel), Sending(id) + [Deliver(id, FAILURE)] + [StartRetry(0)]) ==
      OneQueued(channel, id, R_FAILED, RUNNING, O_PENDING).(retries := map[0 := Retry.Started])
  {
    Fails(channel, id);
    RunSnoc(Created(false, channel), Sending(id) + [Deliver(id, FAILURE)], StartRetry(0));
  }

  function Retried(channel: Channel, id: Identity): World {
    OneQueued(channel, id, R_FAILED, RUNNING, O_PENDING).(retries := map[0 := Retry.Listed({id})])
  }

  lemma ListsFailed(channel: Channel, id: Identity)
    ensures Run(Created(false, channel), Sending(id) + [Deliver(id, FAILURE)] + [StartRetry(0)] + [ListFailed(0)]) == Retried(channel, id)
  {
    StartsRetry(channel, id);
    RunSnoc(Created(false, channel), Sending(id) + [Deliver(id, FAILURE)] + [StartRetry(0)], ListFailed(0));
    assert RetryableIds(OneQueued(channel, id, R_FAILED, RUNNING, O_PENDING).recipients) == {id};
  }

  lemma RetriedEndangered(channel: Channel, id: Identity)
    ensures Endangers(Retried(channel, id), CommitRetry(0), id)
  {}

  /** The retry listed the recipient before the cancellation and commits after it. */
  lemma RetryAfterCancel(channel: Channel, id: Identity)
    ensures var w := Run(Created(false, channel),
                         Sending(id) + [Deliver(id, FAILURE)] + [StartRetry(0)] + [ListFailed(0)] + [Cancel, CommitRetry(0)]);
      w.broadcast.status == CANCELLED && Queued(w, id)
  {
    ListsFailed(channel, id);
    RetriedEndangered(channel, id);
    DangerShows(channel, Sending(id) + [Deliver(id, FAILURE)] + [StartRetry(0)] + [ListFailed(0)], Retried(channel, id), CommitRetry(0), id);
  }

  // --- A completion that comes too late ---

  lemma CountsFailed(channel: Channel, id: Identity)
    ensures ApplyPreparation(Retried(channel, id), Count(0)) == Retried(channel, id).(preparations := map[0 := Counted])
  {
    assert map[0 := Queueing([id], [])][0 := Counted] == map[0 := Counted];
  }

  lemma CommitsQueued(w: World, id: Identity)
    requires ListedIn(w, 0, id) && id in w.recipients
    ensures var t := ApplyRetry(w, CommitRetry(0)); Queued(t, id) && t.preparations == w.preparations && t.broadcast == w.broadcast
  {}

  lemma CompletesAnyway(w: World, id: Identity)
    requires 0 in w.preparations && w.preparations[0].Counted? && w.broadcast.status == RUNNING && Queued(w, id)
    ensures var t := ApplyPreparation(w, Complete(0)); t.broadcast.status == COMPLETED && Queued(t, id)
  {}

  lemma RunsCount(channel: Channel, id: Identity)
    ensures Run(Created(false, channel), Sending(id) + [Deliver(id, FAILURE)] + [StartRetry(0)] + [ListFailed(0)] + [Count(0)]) ==
      Retried(channel, id).(preparations := map[0 := Counted])
  {
    ListsFailed(channel, id);
    CountsFailed(channel, id);
    RunSnoc(Created(false, channel), Sending(id) + [Deliver(id, FAILURE)] + [StartRetry(0)] + [ListFailed(0)], Count(0));
  }

  lemma RunsCommit(channel: Channel, id: Identity)
    ensures var t := Run(Created(false, channel),
                         Sending(id) + [Deliver(id, FAILURE)] + [StartRetry(0)] + [ListFailed(0)] + [Count(0)] + [CommitRetry(0)]);
      Queued(t, id) && t.preparations == map[0 := Counted] && t.broadcast.status == RUNNING
  {
    var counted := Retried(channel, id).(preparations := map[0 := Counted]);
    RunsCount(channel, id);
    CommitsQueued(counted, id);
    RunSnoc(Created(false, channel),
            Sending(id) + [Deliver(id, FAILURE)] + [StartRetry(0)] + [ListFailed(0)] + [Count(0)], CommitRetry(0));
  }

  /** A retry that commits between the count and the completion: the broadcast ends COMPLETED with a QUEUED recipient. */
  lemma CompletedWhileQueued(channel: Channel, id: Identity)
    ensures var w := Run(Created(false, channel),
                         Sending(id) + [Deliver(id, FAILURE)] + [StartRetry(0)] + [ListFailed(0)] + [Count(0)] + [CommitRetry(0)] + [Complete(0)]);
      w.broadcast.status == COMPLETED && Queued(w, id)
  {
    var committed := Sending(id) + [Deliver(id, FAILURE)] + [StartRetry(0)] + [ListFailed(0)] + [Count(0)] + [CommitRetry(0)];
    RunsCommit(channel, id);
    CompletesAnyway(Run(Created(false, channel), committed), id);
    RunSnoc(Created(false, channel), committed, Complete(0));
  }
}
