/**
  How far preparations, retries and deferrals under way have come: which step takes them
  from one stage to the next, and what they have listed.
*/
module BroadcastStages {
  import opened Collections
  import opened Broadcasts
  import opened BroadcastLaws
  import opened BroadcastDiagrams

  /** The list holds every PENDING recipient once, and nobody else. */
  predicate ListsPending(w: World, pending: seq<Identity>) {
    && (forall i, j :: 0 <= i < j < |pending| ==> pending[i] != pending[j])
    && (forall i :: 0 <= i < |pending| ==> pending[i] in w.recipients && w.recipients[pending[i]].status == R_PENDING)
    && (forall id :: id in w.recipients && w.recipients[id].status == R_PENDING ==> exists i :: 0 <= i < |pending| && pending[i] == id)
  }

  lemma ListsPendingIff(w: World, pending: seq<Identity>)
    ensures ListsPending(w, pending) <==> IsPendingList(w.recipients, pending)
  {
    if IsPendingList(w.recipients, pending) {
      forall i | 0 <= i < |pending| ensures pending[i] in w.recipients && w.recipients[pending[i]].status == R_PENDING {
        assert pending[i] in pending;
      }
    }
  }

  /** It is the recipient's turn, its customer is there and the broadcast is running. */
  predicate Attempts(w: World, s: Step) {
    && s.QueueNext? && s.call in w.preparations && w.preparations[s.call].Queueing? && w.preparations[s.call].pending != []
    && TurnOf(w, s.call, w.preparations[s.call].pending[0]) && !s.missing && w.broadcast.status == RUNNING
  }

  predicate RowExists(w: World, id: Identity) {
    exists o :: o in w.outboxes && w.outboxes[o].recipient == id
  }

  /** The unique key of the row is taken. */
  predicate Throws(w: World, s: Step) {
    Attempts(w, s) && RowExists(w, w.preparations[s.call].pending[0])
  }

  /** An id that was to be fresh is not; such a step does nothing. */
  predicate Clashes(w: World, s: Step) {
    Attempts(w, s) && !Throws(w, s) && (s.message in w.messages || s.outbox in w.outboxes)
  }

  predicate LeavesStage(w: World, s: Step, call: Uuid)
    requires call in w.preparations
  {
    var p := w.preparations[call];
    || (s == Store(call) && p.Loaded?)
    || (s.List? && s.call == call && p.Stored? && ListsPending(w, s.pending))
    || (s.QueueNext? && s.call == call && p.Queueing? && p.pending != [] && !Clashes(w, s))
    || (s == Count(call) && p.Queueing? && p.pending == [])
    || (s == Complete(call) && p.Counted?)
  }

  predicate EntersStage(w: World, s: Step, call: Uuid, p: Preparation) {
    match p
    case Loaded(found) => call !in w.preparations && w.broadcast.status == PREPARING && s == Load(call, found)
    case Stored(found) => s == Store(call) && HasCall(w, call, Loaded(found))
    case Queueing(found, pending) =>
      || (s == List(call, pending) && HasCall(w, call, Stored(found)) && ListsPending(w, pending))
      || (s.QueueNext? && s.call == call && call in w.preparations && w.preparations[call].Queueing?
          && w.preparations[call].identities == found && w.preparations[call].pending != []
          && w.preparations[call].pending[1..] == pending && !Throws(w, s) && !Clashes(w, s))
    case Counted =>
      s == Count(call) && call in w.preparations && w.preparations[call].Queueing? && w.preparations[call].pending == []
      && NobodyUnfinished(w.recipients)
  }

  predicate StageAfter(w: World, s: Step, t: World, call: Uuid, p: Preparation) {
    HasCall(t, call, p) <==> EntersStage(w, s, call, p) || (HasCall(w, call, p) && !LeavesStage(w, s, call))
  }

  function NextInLine(w: World, call: Uuid): map<Uuid, Preparation>
    requires At(w, call) && w.preparations[call].Queueing? && w.preparations[call].pending != []
  {
    var p := w.preparations[call];
    w.preparations[call := Queueing(p.identities, p.pending[1..])]
  }

  lemma TurnTakes(w: World, s: Step)
    requires s.QueueNext? && At(w, s.call) && w.preparations[s.call].Queueing? && w.preparations[s.call].pending != []
    ensures ApplyQueue(w, s.call, s.missing, s.message, s.outbox).preparations ==
      if Throws(w, s) then w.preparations - {s.call} else if Clashes(w, s) then w.preparations else NextInLine(w, s.call)
  {
    var id := w.preparations[s.call].pending[0];
    assert KeyTaken(w.outboxes, id) <==> RowExists(w, id);
    if Attempts(w, s) && !Throws(w, s) && !Clashes(w, s) {
      QueueingAdvances(w.(preparations := NextInLine(w, s.call)), id, s.message, s.outbox);
    }
  }

  lemma TurnStage(w: World, s: Step, t: World, call: Uuid, p: Preparation)
    requires s.QueueNext? && At(w, s.call) && w.preparations[s.call].Queueing? && w.preparations[s.call].pending != []
    requires t.preparations ==
      if Throws(w, s) then w.preparations - {s.call} else if Clashes(w, s) then w.preparations else NextInLine(w, s.call)
    ensures StageAfter(w, s, t, call, p)
  {}

  lemma TurnStages(w: World, s: Step, call: Uuid, p: Preparation)
    requires s.QueueNext?
    ensures StageAfter(w, s, ApplyPreparation(w, s), call, p)
  {
    if At(w, s.call) && w.preparations[s.call].Queueing? && w.preparations[s.call].pending != [] {
      TurnTakes(w, s);
      TurnStage(w, s, ApplyQueue(w, s.call, s.missing, s.message, s.outbox), call, p);
    } else {
      assert ApplyPreparation(w, s) == w;
    }
  }

  lemma ListStages(w: World, s: Step, call: Uuid, p: Preparation)
    requires s.List?
    ensures StageAfter(w, s, ApplyPreparation(w, s), call, p)
  {
    ListsPendingIff(w, s.pending);
  }

  lemma CountStages(w: World, s: Step, call: Uuid, p: Preparation)
    requires s.Count?
    ensures StageAfter(w, s, ApplyPreparation(w, s), call, p)
  {
    if At(w, s.call) && w.preparations[s.call].Queueing? && w.preparations[s.call].pending == [] {
      CountDecides(w, s.call);
    } else {
      assert ApplyPreparation(w, s) == w;
    }
  }

  lemma CompleteStages(w: World, s: Step, call: Uuid, p: Preparation)
    requires s.Complete?
    ensures StageAfter(w, s, ApplyPreparation(w, s), call, p)
  {}

  lemma LoadStages(w: World, s: Step, call: Uuid, p: Preparation)
    requires s.Load?
    ensures StageAfter(w, s, ApplyPreparation(w, s), call, p)
  {}

  lemma StoreStages(w: World, s: Step, call: Uuid, p: Preparation)
    requires s.Store?
    ensures StageAfter(w, s, ApplyPreparation(w, s), call, p)
  {}

  lemma StagesMove(w: World, s: Step, call: Uuid, p: Preparation)
    requires IsPreparation(s)
    ensures StageAfter(w, s, ApplyPreparation(w, s), call, p)
  {
    if s.QueueNext? {
      TurnStages(w, s, call, p);
    } else if s.List? {
      ListStages(w, s, call, p);
    } else if s.Count? {
      CountStages(w, s, call, p);
    } else if s.Complete? {
      CompleteStages(w, s, call, p);
    } else if s.Load? {
      LoadStages(w, s, call, p);
    } else {
      StoreStages(w, s, call, p);
    }
  }

  lemma OthersStage(w: World, s: Step, call: Uuid, p: Preparation)
    requires !IsPreparation(s)
    ensures !EntersStage(w, s, call, p) && (call in w.preparations ==> !LeavesStage(w, s, call))
  {}

  /** A preparation goes from one stage to the next exactly in these cases. */
  lemma PreparationsMove(w: World, s: Step, call: Uuid, p: Preparation)
    ensures StageAfter(w, s, Apply(w, s), call, p)
  {
    if IsPreparation(s) {
      StagesMove(w, s, call, p);
    } else {
      OthersStage(w, s, call, p);
      OthersKeepPreparations(w, s);
    }
  }

  lemma OthersKeepPreparations(w: World, s: Step)
    requires !IsPreparation(s)
    ensures Apply(w, s).preparations == w.preparations
  {
    if IsDelivery(s) {
      DeliveryKeepsPreparations(w, s);
    } else if IsCall(s) {
      assert ApplyCall(w, s).preparations == w.preparations;
    } else {
      RetryKeepsPreparations(w, s);
    }
  }

  predicate HasRetry(w: World, call: Uuid, r: Retry) {
    call in w.retries && w.retries[call] == r
  }

  /** Exactly the recipients that failed and have a row. */
  predicate AllFailed(w: World, ids: set<Identity>) {
    && (forall id :: id in ids ==> HasRow(w, id) && w.recipients[id].status == R_FAILED)
    && (forall id :: id in w.recipients && HasRow(w, id) && w.recipients[id].status == R_FAILED ==> id in ids)
  }

  predicate RetryAfter(w: World, s: Step, t: World, call: Uuid, r: Retry) {
    HasRetry(t, call, r) <==>
      || (r.Started? && s == StartRetry(call) && call !in w.retries && w.broadcast.status == RUNNING)
      || (r.Listed? && s == ListFailed(call) && HasRetry(w, call, Retry.Started) && AllFailed(w, r.ids))
      || (HasRetry(w, call, r) && !(s == ListFailed(call) && r.Started?) && !(s == CommitRetry(call) && r.Listed?))
  }

  lemma ListFailedAfter(w: World, s: Step, call: Uuid, r: Retry)
    requires IsRetry(s)
    ensures RetryAfter(w, s, ApplyRetry(w, s), call, r)
  {
    if r.Listed? {
      assert AllFailed(w, r.ids) <==> r.ids == RetryableIds(w.recipients);
    }
  }

  lemma OthersKeepRetries(w: World, s: Step)
    requires !IsRetry(s)
    ensures Apply(w, s).retries == w.retries
  {
    if IsCall(s) {
      CallLinksStay(w, s);
    } else if IsDelivery(s) {
      DeliveryLinksStay(w, s);
    } else if IsOperator(s) {
      OperatorLinksStay(w, s);
    } else {
      PreparationLinksStay(w, s);
    }
  }

  /** A retry under way is started, lists everybody who failed, and ends with its transaction. */
  lemma RetriesMove(w: World, s: Step, call: Uuid, r: Retry)
    ensures RetryAfter(w, s, Apply(w, s), call, r)
  {
    if IsRetry(s) {
      ListFailedAfter(w, s, call, r);
    } else {
      OthersKeepRetries(w, s);
    }
  }

  predicate DeferralAfter(w: World, s: Step, t: World, lease: Uuid, id: Identity) {
    (lease in t.deferrals && t.deferrals[lease] == id) <==>
      || (s == ReadPaused(lease, id) && lease !in w.deferrals && w.channel == WHATSAPP && w.broadcast.status == PAUSED
          && LeaseOf(w, lease, id))
      || (lease in w.deferrals && w.deferrals[lease] == id && !(s == Defer(lease) && w.channel == WHATSAPP))
  }

  lemma WorkerDefers(w: World, s: Step, lease: Uuid, id: Identity)
    requires s.ReadPaused? || s.Defer?
    ensures DeferralAfter(w, s, ApplyDelivery(w, s), lease, id)
  {}

  lemma OthersDeferNothing(w: World, s: Step)
    requires IsDelivery(s) && !s.ReadPaused? && !s.Defer?
    ensures ApplyDelivery(w, s).deferrals == w.deferrals
  {}

  lemma CallsDeferNothing(w: World, s: Step)
    requires IsCall(s) || IsRetry(s) || IsOperator(s)
    ensures Apply(w, s).deferrals == w.deferrals
  {}

  lemma PreparationsDeferNothing(w: World, s: Step)
    requires IsPreparation(s)
    ensures ApplyPreparation(w, s).deferrals == w.deferrals
  {}

  lemma DeliveriesDefer(w: World, s: Step, lease: Uuid, id: Identity)
    requires IsDelivery(s)
    ensures DeferralAfter(w, s, ApplyDelivery(w, s), lease, id)
  {
    if s.ReadPaused? || s.Defer? {
      WorkerDefers(w, s, lease, id);
    } else {
      OthersDeferNothing(w, s);
    }
  }

  lemma OthersKeepDeferrals(w: World, s: Step)
    requires !IsDelivery(s)
    ensures Apply(w, s).deferrals == w.deferrals
  {
    if IsPreparation(s) {
      PreparationsDeferNothing(w, s);
    } else {
      CallsDeferNothing(w, s);
    }
  }

  /** A worker defers what it holds, having found the broadcast PAUSED, until it commits. */
  lemma DeferralsMove(w: World, s: Step, lease: Uuid, id: Identity)
    ensures DeferralAfter(w, s, Apply(w, s), lease, id)
  {
    if IsDelivery(s) {
      DeliveriesDefer(w, s, lease, id);
    } else {
      OthersKeepDeferrals(w, s);
    }
  }
}
