/**
  What can happen to the recipients of a cancelled broadcast. Cancelling leaves recipients
  that are PROCESSING alone. Nobody who queues a recipient looks at the broadcast at that
  moment: not a worker that requeues a failed attempt or defers one, not a retry that has
  passed its status check, and not an operator who retries an outbox row by hand.
*/
module BroadcastCancellation {
  import opened Collections
  import opened Broadcasts

  predicate Queued(w: World, id: Identity) {
    id in w.recipients && w.recipients[id].status == R_QUEUED
  }

  /** The broadcast was cancelled, and may have been archived and restored since. */
  predicate Ended(w: World) {
    Stamped(w.broadcast) && w.broadcast.cancelledAt
  }

  lemma EndedStatus(w: World)
    requires Ended(w)
    ensures w.broadcast.status == CANCELLED || w.broadcast.status == ARCHIVED
  {}

  /** What holds in every run from the creation of a broadcast. */
  predicate Sound(w: World) {
    Stamped(w.broadcast) && RowsSound(w) && RetriesSound(w)
  }

  predicate ListedIn(w: World, call: Uuid, id: Identity) {
    call in w.retries && w.retries[call].Listed? && id in w.retries[call].ids
  }

  predicate Owns(w: World, id: Identity, outbox: Uuid) {
    id in w.recipients && w.recipients[id].outbox == Some(outbox)
  }

  /** The step writes QUEUED to the recipient. */
  predicate Requeues(w: World, s: Step, id: Identity) {
    match s
    case Requeue(_, to) => w.channel == TELEGRAM && to == id && Linked(w, id) && Busy(w.recipients[id])
    case Defer(lease) => w.channel == WHATSAPP && lease in w.deferrals && w.deferrals[lease] == id && Holds(w, lease, id)
    case CommitRetry(call) => ListedIn(w, call, id) && id in w.recipients
    case RetryRow(outbox) => w.channel == TELEGRAM && RowIs(w, outbox, O_FAILED) && Owns(w, id, outbox)
    case Reconcile(outbox, applied) =>
      !applied && w.channel == TELEGRAM && RowIs(w, outbox, O_UNKNOWN) && Owns(w, id, outbox)
    case _ => false
  }

  /** The step takes the recipient up or settles it. */
  predicate Takes(w: World, s: Step, id: Identity) {
    match s
    case Process(to) => to == id && Linked(w, id) && Busy(w.recipients[id])
    case Deliver(to, report) => to == id && Reached(w, id) && Reportable(report)
    case Reconcile(outbox, applied) =>
      applied && w.channel == TELEGRAM && RowIs(w, outbox, O_UNKNOWN) && Owns(w, id, outbox)
    case _ => false
  }

  // --- One step ---

  lemma CallQueues(w: World, s: Step, id: Identity)
    requires Ended(w) && IsCall(s)
    ensures Queued(ApplyCall(w, s), id) <==> Queued(w, id)
  {
    EndedStatus(w);
  }

  lemma RetryQueues(w: World, s: Step, id: Identity)
    requires IsRetry(s)
    ensures Queued(ApplyRetry(w, s), id) <==> Requeues(w, s, id) || Queued(w, id)
  {}

  lemma DeliveryQueues(w: World, s: Step, id: Identity)
    requires IsDelivery(s)
    ensures Queued(ApplyDelivery(w, s), id) <==> Requeues(w, s, id) || (Queued(w, id) && !Takes(w, s, id))
  {}

  lemma OperatorQueues(w: World, s: Step, id: Identity)
    requires IsOperator(s)
    ensures Queued(ApplyOperator(w, s), id) <==> Requeues(w, s, id) || (Queued(w, id) && !Takes(w, s, id))
  {}

  lemma PreparationQueues(w: World, s: Step, id: Identity)
    requires Ended(w) && IsPreparation(s)
    ensures Queued(ApplyPreparation(w, s), id) <==> Queued(w, id)
  {
    EndedStatus(w);
    if s.Load? || s.List? || s.Count? || s.Complete? {
      BookkeepingUntouched(w, s);
    }
  }

  lemma StepQueues(w: World, s: Step, id: Identity)
    requires Ended(w)
    ensures Queued(Apply(w, s), id) <==> Requeues(w, s, id) || (Queued(w, id) && !Takes(w, s, id))
  {
    if IsCall(s) {
      CallQueues(w, s, id);
    } else if IsRetry(s) {
      RetryQueues(w, s, id);
    } else if IsDelivery(s) {
      DeliveryQueues(w, s, id);
    } else if IsOperator(s) {
      OperatorQueues(w, s, id);
    } else {
      PreparationQueues(w, s, id);
    }
  }

  lemma StepStaysEnded(w: World, s: Step)
    requires Ended(w)
    ensures Ended(Apply(w, s))
  {
    StampedStep(w, s);
    EndStep(w, s);
  }

  // --- Runs ---

  lemma {:induction false} RunSnoc(w: World, steps: seq<Step>, s: Step)
    ensures Run(w, steps + [s]) == Apply(Run(w, steps), s)
    decreases |steps|
  {
    if steps == [] {
      assert [] + [s] == [s];
      assert Run(Apply(w, s), []) == Apply(w, s);
    } else {
      assert (steps + [s])[0] == steps[0] && (steps + [s])[1..] == steps[1..] + [s];
      RunSnoc(Apply(w, steps[0]), steps[1..], s);
    }
  }

  lemma {:induction false} StaysEnded(w: World, steps: seq<Step>)
    requires Ended(w)
    ensures Ended(Run(w, steps))
    decreases |steps|
  {
    if steps != [] {
      StepStaysEnded(w, steps[0]);
      StaysEnded(Apply(w, steps[0]), steps[1..]);
    }
  }

  predicate RequeuedAt(w: World, steps: seq<Step>, k: nat, id: Identity)
    requires k < |steps|
  {
    Requeues(Run(w, steps[..k]), steps[k], id)
  }

  predicate TakenAt(w: World, steps: seq<Step>, k: nat, id: Identity)
    requires k < |steps|
  {
    Takes(Run(w, steps[..k]), steps[k], id)
  }

  predicate QueuedSince(w: World, steps: seq<Step>, k: nat, id: Identity)
    requires k < |steps|
  {
    RequeuedAt(w, steps, k, id) && forall j :: k < j < |steps| ==> !TakenAt(w, steps, j, id)
  }

  lemma FrontAgrees(w: World, steps: seq<Step>, k: nat, id: Identity)
    requires k + 1 < |steps|
    ensures var front := steps[..|steps| - 1];
      (RequeuedAt(w, steps, k, id) <==> RequeuedAt(w, front, k, id)) && (TakenAt(w, steps, k, id) <==> TakenAt(w, front, k, id))
  {
    assert steps[..|steps| - 1][..k] == steps[..k];
  }

  lemma SinceGrows(w: World, steps: seq<Step>, k: nat, id: Identity)
    requires k + 1 < |steps|
    ensures QueuedSince(w, steps, k, id) <==> QueuedSince(w, steps[..|steps| - 1], k, id) && !TakenAt(w, steps, |steps| - 1, id)
  {
    var n := |steps| - 1;
    var front := steps[..n];
    FrontAgrees(w, steps, k, id);
    if QueuedSince(w, front, k, id) && !TakenAt(w, steps, n, id) {
      forall j | k < j < |steps| ensures !TakenAt(w, steps, j, id) {
        if j < n { FrontAgrees(w, steps, j, id); }
      }
    }
    if QueuedSince(w, steps, k, id) {
      forall j | k < j < |front| ensures !TakenAt(w, front, j, id) {
        FrontAgrees(w, steps, j, id);
      }
    }
  }

  /**
    In the time after a cancellation: a recipient is QUEUED exactly when some step wrote
    QUEUED to it and no later step took it up or settled it.
  */
  lemma {:induction false} QueuedIffRequeued(w: World, steps: seq<Step>, id: Identity)
    requires Ended(w) && !Queued(w, id)
    ensures Queued(Run(w, steps), id) <==> exists k :: 0 <= k < |steps| && QueuedSince(w, steps, k, id)
    decreases |steps|
  {
    if steps != [] {
      var n := |steps| - 1;
      var front, last := steps[..n], steps[n];
      assert steps == front + [last];
      RunSnoc(w, front, last);
      StaysEnded(w, front);
      StepQueues(Run(w, front), last, id);
      QueuedIffRequeued(w, front, id);
      assert QueuedSince(w, steps, n, id) <==> Requeues(Run(w, front), last, id);
      forall k | 0 <= k < n
        ensures QueuedSince(w, steps, k, id) <==> QueuedSince(w, front, k, id) && !Takes(Run(w, front), last, id)
      {
        SinceGrows(w, steps, k, id);
      }
    }
  }

  // --- Who can be queued at all ---

  /** A WhatsApp worker is about to defer the recipient and still holds its row. */
  predicate Deferring(w: World, id: Identity) {
    exists lease :: lease in w.deferrals && w.deferrals[lease] == id && Holds(w, lease, id)
  }

  /** The recipient's row has not succeeded: it is or can become FAILED or UNKNOWN. */
  predicate Open(w: World, id: Identity) {
    Linked(w, id) && w.recipients[id].outbox.value in w.outboxes
    && w.outboxes[w.recipients[id].outbox.value].status != O_DONE
  }

  /** A retry holds the recipient in its list. */
  predicate ListedFor(w: World, id: Identity) {
    exists call :: call in w.retries && ListedIn(w, call, id)
  }

  predicate AboutToList(w: World, call: Uuid) {
    call in w.retries && w.retries[call].Started?
  }

  /** A retry has passed its status check and has not listed the failed recipients yet. */
  predicate Retrying(w: World) {
    exists call :: call in w.retries && AboutToList(w, call)
  }

  /** What the channel's workers, and an operator if `hand`, can still queue. */
  predicate Pursued(w: World, id: Identity, busy: bool, hand: bool) {
    if w.channel == TELEGRAM then busy || (hand && Open(w, id)) else Deferring(w, id)
  }

  predicate CanBeRetried(w: World, id: Identity)
    requires id in w.recipients
  {
    ListedFor(w, id) || (Retrying(w) && (w.channel == WHATSAPP || w.recipients[id].status == R_FAILED))
  }

  predicate Exposed(w: World, id: Identity, hand: bool) {
    Linked(w, id) && (CanBeRetried(w, id) || Pursued(w, id, Busy(w.recipients[id]), hand))
  }

  /** The same before the cancellation, which takes QUEUED recipients out of the queue. */
  predicate AtRisk(w: World, id: Identity, hand: bool) {
    Linked(w, id) && (CanBeRetried(w, id) || Pursued(w, id, w.recipients[id].status == R_PROCESSING, hand))
  }

  predicate NoHand(steps: seq<Step>) {
    forall s :: s in steps ==> !IsOperator(s)
  }

  // --- Nobody becomes exposed later ---

  /** Nothing that matters for the recipient has changed. */
  predicate Keeps(w: World, t: World, id: Identity) {
    && id in w.recipients && id in t.recipients && t.recipients[id] == w.recipients[id]
    && t.outboxes == w.outboxes && t.channel == w.channel && t.deferrals == w.deferrals && t.retries == w.retries
  }

  lemma SameExposes(w: World, t: World, id: Identity, hand: bool)
    requires Keeps(w, t, id) && Exposed(t, id, hand)
    ensures Exposed(w, id, hand)
  {
    SameRetried(w, t, id);
    if Deferring(t, id) {
      var lease :| lease in t.deferrals && t.deferrals[lease] == id && Holds(t, lease, id);
      assert Holds(w, lease, id);
    }
  }

  lemma SameRetried(w: World, t: World, id: Identity)
    requires t.retries == w.retries
    ensures ListedFor(t, id) ==> ListedFor(w, id)
    ensures Retrying(t) ==> Retrying(w)
  {
    if ListedFor(t, id) {
      var call :| call in t.retries && ListedIn(t, call, id);
      assert ListedIn(w, call, id);
    }
    if Retrying(t) {
      var call :| call in t.retries && AboutToList(t, call);
      assert AboutToList(w, call);
    }
  }

  lemma CallExposes(w: World, s: Step, id: Identity, hand: bool)
    requires Ended(w) && IsCall(s) && Exposed(ApplyCall(w, s), id, hand)
    ensures Exposed(w, id, hand)
  {
    EndedStatus(w);
    assert Keeps(w, ApplyCall(w, s), id);
    SameExposes(w, ApplyCall(w, s), id, hand);
  }

  lemma ListingRetried(w: World, call: Uuid, id: Identity)
    requires AboutToList(w, call) && id in w.recipients
    ensures var t := ApplyRetry(w, ListFailed(call));
      CanBeRetried(t, id) ==> CanBeRetried(w, id)
  {
    var t := ApplyRetry(w, ListFailed(call));
    if ListedFor(t, id) {
      var c :| c in t.retries && ListedIn(t, c, id);
      if c == call {
        assert id in RetryableIds(w.recipients) && w.recipients[id].status == R_FAILED;
      } else {
        assert ListedIn(w, c, id);
      }
    }
  }

  lemma ListingExposes(w: World, call: Uuid, id: Identity, hand: bool)
    requires AboutToList(w, call) && Exposed(ApplyRetry(w, ListFailed(call)), id, hand)
    ensures Exposed(w, id, hand)
  {
    var t := ApplyRetry(w, ListFailed(call));
    ListingRetried(w, call, id);
    if Deferring(t, id) {
      var lease :| lease in t.deferrals && t.deferrals[lease] == id && Holds(t, lease, id);
      assert Holds(w, lease, id);
    }
  }

  lemma CommitHolds(w: World, call: Uuid, id: Identity)
    requires call in w.retries && w.retries[call].Listed?
    ensures var t := ApplyRetry(w, CommitRetry(call));
      (Deferring(t, id) ==> Deferring(w, id)) && (Open(t, id) ==> Open(w, id))
  {
    var t := ApplyRetry(w, CommitRetry(call));
    if Deferring(t, id) {
      var lease :| lease in t.deferrals && t.deferrals[lease] == id && Holds(t, lease, id);
      assert Holds(w, lease, id);
    }
  }

  lemma CommitRetried(w: World, call: Uuid, id: Identity)
    requires call in w.retries && w.retries[call].Listed? && id in w.recipients && id !in w.retries[call].ids
    ensures var t := ApplyRetry(w, CommitRetry(call));
      CanBeRetried(t, id) ==> CanBeRetried(w, id)
  {
    var t := ApplyRetry(w, CommitRetry(call));
    if ListedFor(t, id) {
      var c :| c in t.retries && ListedIn(t, c, id);
      assert ListedIn(w, c, id);
    }
    if Retrying(t) {
      var c :| c in t.retries && AboutToList(t, c);
      assert AboutToList(w, c);
    }
  }

  lemma CommitExposes(w: World, call: Uuid, id: Identity, hand: bool)
    requires call in w.retries && w.retries[call].Listed?
    requires Exposed(ApplyRetry(w, CommitRetry(call)), id, hand)
    ensures Exposed(w, id, hand)
  {
    assert Linked(w, id);
    if id in w.retries[call].ids {
      assert ListedIn(w, call, id);
    } else {
      CommitRetried(w, call, id);
      CommitHolds(w, call, id);
    }
  }

  lemma RetryExposes(w: World, s: Step, id: Identity, hand: bool)
    requires Ended(w) && IsRetry(s) && Exposed(ApplyRetry(w, s), id, hand)
    ensures Exposed(w, id, hand)
  {
    EndedStatus(w);
    if s.ListFailed? && AboutToList(w, s.call) {
      ListingExposes(w, s.call, id, hand);
    } else if s.CommitRetry? && s.call in w.retries && w.retries[s.call].Listed? {
      CommitExposes(w, s.call, id, hand);
    }
  }

  lemma DeliveryPursued(w: World, s: Step, id: Identity, hand: bool)
    requires w.broadcast.status != PAUSED && IsDelivery(s) && Linked(w, id)
    requires var t := ApplyDelivery(w, s); Pursued(t, id, Busy(t.recipients[id]), hand)
    ensures Pursued(w, id, Busy(w.recipients[id]), hand)
  {}

  lemma DeliveryFails(w: World, s: Step, id: Identity)
    requires IsDelivery(s) && Linked(w, id) && ApplyDelivery(w, s).recipients[id].status == R_FAILED
    ensures w.channel == WHATSAPP || w.recipients[id].status == R_FAILED || Busy(w.recipients[id])
    ensures ApplyDelivery(w, s).channel == w.channel
  {}

  lemma RetriedBefore(w: World, t: World, id: Identity)
    requires id in w.recipients && id in t.recipients && t.retries == w.retries && CanBeRetried(t, id)
    requires t.channel == WHATSAPP || t.recipients[id].status == R_FAILED ==>
      w.channel == WHATSAPP || w.recipients[id].status == R_FAILED || Busy(w.recipients[id])
    ensures CanBeRetried(w, id) || (w.channel == TELEGRAM && Busy(w.recipients[id]))
  {
    SameRetried(w, t, id);
  }

  lemma DeliveryRetried(w: World, s: Step, id: Identity)
    requires IsDelivery(s) && Linked(w, id) && CanBeRetried(ApplyDelivery(w, s), id)
    ensures CanBeRetried(w, id) || (w.channel == TELEGRAM && Busy(w.recipients[id]))
  {
    var t := ApplyDelivery(w, s);
    DeliveryLinksStay(w, s);
    if t.recipients[id].status == R_FAILED {
      DeliveryFails(w, s, id);
    }
    RetriedBefore(w, t, id);
  }

  lemma DeliveryExposes(w: World, s: Step, id: Identity, hand: bool)
    requires Ended(w) && IsDelivery(s) && Exposed(ApplyDelivery(w, s), id, hand)
    ensures Exposed(w, id, hand)
  {
    EndedStatus(w);
    DeliveryLinks(w, s, id);
    if CanBeRetried(ApplyDelivery(w, s), id) {
      DeliveryRetried(w, s, id);
    } else {
      DeliveryPursued(w, s, id, hand);
    }
  }

  lemma DeliveryLinks(w: World, s: Step, id: Identity)
    requires IsDelivery(s) && Linked(ApplyDelivery(w, s), id)
    ensures Linked(w, id)
  {}

  lemma MarkingExposes(w: World, outbox: Uuid, from: OutboxStatus, row: OutboxStatus, r: RecipientStatus, m: MessageStatus, id: Identity)
    requires w.channel == TELEGRAM && RowIs(w, outbox, from) && from != O_DONE
    requires Exposed(RelationsMarked(w, outbox, row, r, m), id, true)
    ensures Exposed(w, id, true)
  {
    var t := RelationsMarked(w, outbox, row, r, m);
    SameRetried(w, t, id);
    if !Owns(w, id, outbox) {
      assert t.recipients[id] == w.recipients[id];
    } else {
      assert Open(w, id);
    }
  }

  lemma OperatorExposes(w: World, s: Step, id: Identity)
    requires IsOperator(s) && Exposed(ApplyOperator(w, s), id, true)
    ensures Exposed(w, id, true)
  {
    match s
    case RetryRow(outbox) =>
      if w.channel == TELEGRAM && RowIs(w, outbox, O_FAILED) {
        MarkingExposes(w, outbox, O_FAILED, O_RETRY, R_QUEUED, M_QUEUED, id);
      }
    case Reconcile(outbox, applied) =>
      if w.channel == TELEGRAM && RowIs(w, outbox, O_UNKNOWN) {
        if applied {
          MarkingExposes(w, outbox, O_UNKNOWN, O_DONE, R_SENT, M_OTHER, id);
        } else {
          MarkingExposes(w, outbox, O_UNKNOWN, O_RETRY, R_QUEUED, M_QUEUED, id);
        }
      }
  }

  lemma QueueKeeps(w: World, call: Uuid, missing: bool, message: Uuid, outbox: Uuid, id: Identity)
    requires At(w, call) && w.preparations[call].Queueing? && w.preparations[call].pending != []
    requires w.broadcast.status != RUNNING && RowsSound(w)
    requires Linked(ApplyQueue(w, call, missing, message, outbox), id)
    ensures Keeps(w, ApplyQueue(w, call, missing, message, outbox), id)
  {
    assert LinkSound(w, id);
  }

  lemma StoreKeeps(w: World, call: Uuid, id: Identity)
    requires Linked(ApplyPreparation(w, Store(call)), id)
    ensures Keeps(w, ApplyPreparation(w, Store(call)), id)
  {}

  lemma BookkeepingKeeps(w: World, s: Step, id: Identity)
    requires (s.Load? || s.List? || s.Count? || s.Complete?) && Linked(ApplyPreparation(w, s), id)
    ensures Keeps(w, ApplyPreparation(w, s), id)
  {}

  lemma QueueNextKeeps(w: World, s: Step, id: Identity)
    requires s.QueueNext? && w.broadcast.status != RUNNING && RowsSound(w) && Linked(ApplyPreparation(w, s), id)
    ensures Keeps(w, ApplyPreparation(w, s), id)
  {
    if At(w, s.call) && w.preparations[s.call].Queueing? && w.preparations[s.call].pending != [] {
      QueueKeeps(w, s.call, s.missing, s.message, s.outbox, id);
    }
  }

  lemma PreparationKeeps(w: World, s: Step, id: Identity)
    requires Ended(w) && RowsSound(w) && IsPreparation(s) && Linked(ApplyPreparation(w, s), id)
    ensures Keeps(w, ApplyPreparation(w, s), id)
  {
    EndedStatus(w);
    if s.QueueNext? {
      QueueNextKeeps(w, s, id);
    } else if s.Store? {
      StoreKeeps(w, s.call, id);
    } else {
      BookkeepingKeeps(w, s, id);
    }
  }

  lemma PreparationExposes(w: World, s: Step, id: Identity, hand: bool)
    requires Ended(w) && RowsSound(w) && IsPreparation(s) && Exposed(ApplyPreparation(w, s), id, hand)
    ensures Exposed(w, id, hand)
  {
    PreparationKeeps(w, s, id);
    SameExposes(w, ApplyPreparation(w, s), id, hand);
  }

  /** After the end no recipient becomes exposed that was not. */
  lemma {:induction false} RunExposes(w: World, steps: seq<Step>, id: Identity, hand: bool)
    requires Ended(w) && Sound(w) && (hand || NoHand(steps)) && Exposed(Run(w, steps), id, hand)
    ensures Exposed(w, id, hand)
    decreases |steps|
  {
    if steps != [] {
      var s := steps[0];
      assert s in steps;
      StepStaysEnded(w, s);
      StepKeepsRows(w, s);
      StepKeepsRetries(w, s);
      RunExposes(Apply(w, s), steps[1..], id, hand);
      if IsCall(s) {
        CallExposes(w, s, id, hand);
      } else if IsRetry(s) {
        RetryExposes(w, s, id, hand);
      } else if IsDelivery(s) {
        DeliveryExposes(w, s, id, hand);
      } else if IsOperator(s) {
        OperatorExposes(w, s, id);
      } else {
        PreparationExposes(w, s, id, hand);
      }
    }
  }

  // --- Everybody exposed can be queued ---

  lemma RunOne(w: World, s: Step)
    ensures Run(w, [s]) == Apply(w, s)
  {
    assert [s][1..] == [];
    assert Run(Apply(w, s), []) == Apply(w, s);
  }

  lemma RunCons(w: World, s: Step, rest: seq<Step>)
    ensures Run(w, [s] + rest) == Run(Apply(w, s), rest)
  {
    assert ([s] + rest)[1..] == rest;
  }

  lemma CommitShows(w: World, call: Uuid, id: Identity)
    requires ListedIn(w, call, id) && id in w.recipients
    ensures Queued(Run(w, [CommitRetry(call)]), id)
  {
    RunOne(w, CommitRetry(call));
  }

  lemma RetryShows(w: World, call: Uuid, id: Identity) returns (steps: seq<Step>)
    requires AboutToList(w, call) && Linked(w, id) && w.recipients[id].status == R_FAILED
    ensures Queued(Run(w, steps), id) && NoHand(steps)
  {
    var t := Apply(w, ListFailed(call));
    assert id in RetryableIds(w.recipients);
    CommitShows(t, call, id);
    RunCons(w, ListFailed(call), [CommitRetry(call)]);
    steps := [ListFailed(call)] + [CommitRetry(call)];
  }

  lemma FailedReportShows(w: World, call: Uuid, id: Identity) returns (steps: seq<Step>)
    requires AboutToList(w, call) && Linked(w, id) && w.channel == WHATSAPP
    ensures Queued(Run(w, steps), id) && NoHand(steps)
  {
    var s := Deliver(id, Report(R_FAILED, None, 0, None, false));
    var t := Apply(w, s);
    assert AboutToList(t, call) && Linked(t, id);
    var rest := RetryShows(t, call, id);
    RunCons(w, s, rest);
    steps := [s] + rest;
  }

  lemma RetriedShows(w: World, id: Identity) returns (steps: seq<Step>)
    requires Linked(w, id) && CanBeRetried(w, id)
    ensures Queued(Run(w, steps), id) && NoHand(steps)
  {
    if ListedFor(w, id) {
      var call :| call in w.retries && ListedIn(w, call, id);
      CommitShows(w, call, id);
      steps := [CommitRetry(call)];
    } else {
      var call :| call in w.retries && AboutToList(w, call);
      if w.channel == WHATSAPP {
        steps := FailedReportShows(w, call, id);
      } else {
        steps := RetryShows(w, call, id);
      }
    }
  }

  lemma WorkerShows(w: World, id: Identity) returns (steps: seq<Step>)
    requires Linked(w, id) && Pursued(w, id, Busy(w.recipients[id]), false)
    ensures Queued(Run(w, steps), id) && NoHand(steps)
  {
    var s := Requeue(0, id);
    if w.channel == WHATSAPP {
      var lease :| lease in w.deferrals && w.deferrals[lease] == id && Holds(w, lease, id);
      s := Defer(lease);
    }
    DeliveryQueues(w, s, id);
    RunOne(w, s);
    steps := [s];
  }

  lemma {:induction false} Bound(s: set<nat>) returns (n: nat)
    ensures forall x :: x in s ==> x < n
  {
    if x :| x in s {
      var m := Bound(s - {x});
      n := if x < m then m else x + 1;
      assert forall y :: y in s ==> y == x || y in s - {x};
    } else {
      n := 0;
    }
  }

  lemma FreshLease(w: World) returns (lease: Uuid)
    ensures Fresh(w, lease)
  {
    var held := set o | o in w.outboxes && w.outboxes[o].status.O_TAKEN? :: w.outboxes[o].status.lease;
    lease := Bound(w.deferrals.Keys + held);
    forall o | o in w.outboxes ensures w.outboxes[o].status != O_TAKEN(lease) {
      if w.outboxes[o].status.O_TAKEN? {
        assert w.outboxes[o].status.lease in held;
      }
    }
  }

  /** The recipient's own row, with the status given. */
  predicate RowOf(w: World, id: Identity, o: Uuid, s: OutboxStatus) {
    Owns(w, id, o) && RowIs(w, o, s)
  }

  lemma ClosedShows(w: World, id: Identity, o: Uuid) returns (steps: seq<Step>)
    requires w.channel == TELEGRAM && (RowOf(w, id, o, O_FAILED) || RowOf(w, id, o, O_UNKNOWN))
    ensures Queued(Run(w, steps), id)
  {
    var s := if RowOf(w, id, o, O_FAILED) then RetryRow(o) else Reconcile(o, false);
    OperatorQueues(w, s, id);
    RunOne(w, s);
    steps := [s];
  }

  lemma HeldShows(w: World, id: Identity, o: Uuid, lease: Uuid) returns (steps: seq<Step>)
    requires w.channel == TELEGRAM && RowOf(w, id, o, O_TAKEN(lease))
    ensures Queued(Run(w, steps), id)
  {
    var s := Finish(lease, o, O_FAILED);
    assert RowOf(Apply(w, s), id, o, O_FAILED) && Apply(w, s).channel == TELEGRAM;
    var rest := ClosedShows(Apply(w, s), id, o);
    RunCons(w, s, rest);
    steps := [s] + rest;
  }

  lemma DueShows(w: World, id: Identity, o: Uuid) returns (steps: seq<Step>)
    requires w.channel == TELEGRAM && (RowOf(w, id, o, O_PENDING) || RowOf(w, id, o, O_RETRY))
    ensures Queued(Run(w, steps), id)
  {
    var lease := FreshLease(w);
    var s := Claim(lease, o);
    assert RowOf(Apply(w, s), id, o, O_TAKEN(lease)) && Apply(w, s).channel == TELEGRAM;
    var rest := HeldShows(Apply(w, s), id, o, lease);
    RunCons(w, s, rest);
    steps := [s] + rest;
  }

  lemma OpenShows(w: World, id: Identity) returns (steps: seq<Step>)
    requires w.channel == TELEGRAM && Open(w, id)
    ensures Queued(Run(w, steps), id)
  {
    var o := w.recipients[id].outbox.value;
    match w.outboxes[o].status
    case O_TAKEN(lease) => steps := HeldShows(w, id, o, lease);
    case O_FAILED => steps := ClosedShows(w, id, o);
    case O_UNKNOWN => steps := ClosedShows(w, id, o);
    case _ => steps := DueShows(w, id, o);
  }

  lemma ExposedShows(w: World, id: Identity, hand: bool) returns (steps: seq<Step>)
    requires Exposed(w, id, hand)
    ensures Queued(Run(w, steps), id) && (hand || NoHand(steps))
  {
    if CanBeRetried(w, id) {
      steps := RetriedShows(w, id);
    } else if Pursued(w, id, Busy(w.recipients[id]), false) {
      steps := WorkerShows(w, id);
    } else {
      steps := OpenShows(w, id);
    }
  }

  // --- The exact condition ---

  /** Cancelling leaves nobody queued; exposed are exactly those at risk before. */
  lemma CancelExposes(w: World, id: Identity, hand: bool)
    requires Stamped(w.broadcast) && CanCancel(w.broadcast.status)
    ensures Ended(Apply(w, Cancel)) && !Queued(Apply(w, Cancel), id)
    ensures Exposed(Apply(w, Cancel), id, hand) <==> AtRisk(w, id, hand)
  {
    var c := Apply(w, Cancel);
    StampedStep(w, Cancel);
    SameRetried(w, c, id);
    SameRetried(c, w, id);
    CancelRows(w, id);
  }

  lemma CancelRows(w: World, id: Identity)
    requires CanCancel(w.broadcast.status)
    ensures var c := ApplyCall(w, Cancel);
      && (forall lease :: Holds(c, lease, id) <==> Holds(w, lease, id)) && c.deferrals == w.deferrals
      && (Linked(c, id) <==> Linked(w, id)) && (Open(c, id) <==> Open(w, id)) && (Deferring(c, id) <==> Deferring(w, id))
      && (id in w.recipients ==> !Waiting(c.recipients[id]))
      && (id in w.recipients && !Waiting(w.recipients[id]) ==> c.recipients[id] == w.recipients[id])
  {
    var c := ApplyCall(w, Cancel);
    forall lease ensures Holds(c, lease, id) <==> Holds(w, lease, id) {}
  }

  lemma QueuedWasExposed(c: World, steps: seq<Step>, id: Identity, hand: bool)
    requires Ended(c) && Sound(c) && !Queued(c, id) && Queued(Run(c, steps), id) && (hand || NoHand(steps))
    ensures Exposed(c, id, hand)
  {
    QueuedIffRequeued(c, steps, id);
    var k :| 0 <= k < |steps| && QueuedSince(c, steps, k, id);
    var t := Run(c, steps[..k]);
    assert Requeues(t, steps[k], id);
    assert steps[k] in steps;
    RunKeepsRows(c, steps[..k]);
    RequeuesExposed(t, steps[k], id, hand);
    RunExposes(c, steps[..k], id, hand);
  }

  lemma RequeuesExposed(w: World, s: Step, id: Identity, hand: bool)
    requires Sound(w) && Requeues(w, s, id) && (hand || !IsOperator(s))
    ensures Exposed(w, id, hand)
  {
    if s.CommitRetry? {
      assert ListedIn(w, s.call, id) && Linked(w, id);
    }
  }

  lemma CancelledSound(w: World)
    requires Sound(w)
    ensures Sound(Apply(w, Cancel))
  {
    StampedStep(w, Cancel);
    StepKeepsRows(w, Cancel);
    StepKeepsRetries(w, Cancel);
  }

  /** The run ends with the recipient QUEUED, and takes no operator unless `hand`. */
  predicate Leads(w: World, steps: seq<Step>, id: Identity, hand: bool) {
    (hand || NoHand(steps)) && Queued(Run(w, steps), id)
  }

  lemma RiskIsReal(w: World, c: World, id: Identity, hand: bool)
    requires Ended(c) && Sound(c) && !Queued(c, id)
    requires Exposed(c, id, hand) <==> AtRisk(w, id, hand)
    ensures (exists steps :: Leads(c, steps, id, hand)) <==> AtRisk(w, id, hand)
  {
    if steps :| Leads(c, steps, id, hand) {
      QueuedWasExposed(c, steps, id, hand);
    }
    if AtRisk(w, id, hand) {
      var steps := ExposedShows(c, id, hand);
      assert Leads(c, steps, id, hand);
    }
  }

  /**
    After a cancellation a recipient can be QUEUED again exactly if it was at risk when the
    broadcast was cancelled; without an operator's hand likewise, but for open rows.
  */
  lemma RequeuedIffAtRisk(w: World, id: Identity, hand: bool)
    requires Sound(w) && CanCancel(w.broadcast.status)
    ensures (exists steps :: Leads(Apply(w, Cancel), steps, id, hand)) <==> AtRisk(w, id, hand)
  {
    CancelExposes(w, id, hand);
    CancelledSound(w);
    RiskIsReal(w, Apply(w, Cancel), id, hand);
  }

  lemma CancelledForGood(w: World, steps: seq<Step>)
    requires Stamped(w.broadcast) && CanCancel(w.broadcast.status)
    ensures Run(Apply(w, Cancel), steps).broadcast.status in {CANCELLED, ARCHIVED}
  {
    StampedStep(w, Cancel);
    EndIsFinal(Apply(w, Cancel), steps);
  }

  lemma NobodyLeads(w: World, c: World, hand: bool)
    requires forall id :: (exists steps :: Leads(c, steps, id, hand)) <==> AtRisk(w, id, hand)
    ensures (forall steps, id :: !Leads(c, steps, id, hand)) <==> (forall id :: !AtRisk(w, id, hand))
  {
    if steps, id :| Leads(c, steps, id, hand) {
      assert AtRisk(w, id, hand);
    }
    if id :| AtRisk(w, id, hand) {
      var steps :| Leads(c, steps, id, hand);
    }
  }

  /** No continuation ever has anybody in the queue exactly if nobody was at risk. */
  lemma CancellationIsFinal(w: World, hand: bool)
    requires Sound(w) && CanCancel(w.broadcast.status)
    ensures (forall steps, id :: !Leads(Apply(w, Cancel), steps, id, hand)) <==> (forall id :: !AtRisk(w, id, hand))
  {
    forall id ensures (exists steps :: Leads(Apply(w, Cancel), steps, id, hand)) <==> AtRisk(w, id, hand) {
      RequeuedIffAtRisk(w, id, hand);
    }
    NobodyLeads(w, Apply(w, Cancel), hand);
  }
}
