/** Preparations still under way when a broadcast is cancelled, and the recipients they add. */
module LatePreparations {
  import opened Collections
  import opened Broadcasts
  import opened BroadcastCancellation

  predicate Waits(w: World, id: Identity) {
    id in w.recipients && w.recipients[id].status == R_PENDING
  }

  predicate LoadedWith(w: World, call: Uuid, id: Identity) {
    At(w, call) && w.preparations[call].Loaded? && id in w.preparations[call].identities
  }

  /** A preparation has loaded the identity and has not stored it yet. */
  predicate BeingLoaded(w: World, id: Identity) {
    exists call :: call in w.preparations && LoadedWith(w, call, id)
  }

  predicate Comes(w: World, id: Identity) {
    Waits(w, id) || (id !in w.recipients && BeingLoaded(w, id))
  }

  /** The step loads nobody, stores nobody and makes nobody wait. */
  predicate Quiet(w: World, t: World, id: Identity) {
    && (forall call :: call in t.preparations && LoadedWith(t, call, id) ==> LoadedWith(w, call, id))
    && (id in t.recipients <==> id in w.recipients) && (Waits(t, id) ==> Waits(w, id))
  }

  lemma QuietComes(w: World, t: World, id: Identity)
    requires Quiet(w, t, id) && Comes(t, id)
    ensures Comes(w, id)
  {
    if BeingLoaded(t, id) {
      var call :| call in t.preparations && LoadedWith(t, call, id);
      assert LoadedWith(w, call, id);
    }
  }

  lemma CallQuiet(w: World, s: Step, id: Identity)
    requires Ended(w) && IsCall(s)
    ensures Quiet(w, ApplyCall(w, s), id)
  {
    EndedStatus(w);
  }

  lemma RetryQuiet(w: World, s: Step, id: Identity)
    requires IsRetry(s)
    ensures Quiet(w, ApplyRetry(w, s), id)
  {}

  lemma DeliveryQuiet(w: World, s: Step, id: Identity)
    requires IsDelivery(s)
    ensures Quiet(w, ApplyDelivery(w, s), id)
  {}

  lemma OperatorQuiet(w: World, s: Step, id: Identity)
    requires IsOperator(s)
    ensures Quiet(w, ApplyOperator(w, s), id)
  {}

  lemma QueueQuiet(w: World, s: Step, id: Identity)
    requires s.QueueNext? && w.broadcast.status != RUNNING
    ensures Quiet(w, ApplyPreparation(w, s), id)
  {}

  lemma BookkeepingQuiet(w: World, s: Step, id: Identity)
    requires s.List? || s.Count? || s.Complete?
    ensures Quiet(w, ApplyPreparation(w, s), id)
  {}

  lemma StoreComes(w: World, call: Uuid, id: Identity)
    requires At(w, call) && w.preparations[call].Loaded? && Comes(ApplyPreparation(w, Store(call)), id)
    ensures Comes(w, id)
  {
    var t := ApplyPreparation(w, Store(call));
    if id in w.recipients {
      assert t.recipients[id] == w.recipients[id];
    } else if id in t.recipients {
      assert LoadedWith(w, call, id);
    } else {
      var c :| c in t.preparations && LoadedWith(t, c, id);
      assert LoadedWith(w, c, id);
    }
  }

  lemma PreparationComes(w: World, s: Step, id: Identity)
    requires w.broadcast.status != RUNNING && w.broadcast.status != PREPARING
    requires IsPreparation(s) && Comes(ApplyPreparation(w, s), id)
    ensures Comes(w, id)
  {
    if s.QueueNext? {
      QueueQuiet(w, s, id);
      QuietComes(w, ApplyPreparation(w, s), id);
    } else if s.Store? {
      if At(w, s.call) && w.preparations[s.call].Loaded? {
        StoreComes(w, s.call, id);
      }
    } else if !s.Load? {
      BookkeepingQuiet(w, s, id);
      QuietComes(w, ApplyPreparation(w, s), id);
    }
  }

  lemma StepComes(w: World, s: Step, id: Identity)
    requires Ended(w) && Comes(Apply(w, s), id)
    ensures Comes(w, id)
  {
    if IsPreparation(s) {
      EndedStatus(w);
      PreparationComes(w, s, id);
    } else {
      OthersQuiet(w, s, id);
      QuietComes(w, Apply(w, s), id);
    }
  }

  lemma OthersQuiet(w: World, s: Step, id: Identity)
    requires Ended(w) && !IsPreparation(s)
    ensures Quiet(w, Apply(w, s), id)
  {
    if IsCall(s) {
      CallQuiet(w, s, id);
    } else if IsRetry(s) {
      RetryQuiet(w, s, id);
    } else if IsDelivery(s) {
      DeliveryQuiet(w, s, id);
    } else {
      OperatorQuiet(w, s, id);
    }
  }

  lemma {:induction false} RunComes(w: World, steps: seq<Step>, id: Identity)
    requires Ended(w) && Comes(Run(w, steps), id)
    ensures Comes(w, id)
    decreases |steps|
  {
    if steps != [] {
      StepStaysEnded(w, steps[0]);
      RunComes(Apply(w, steps[0]), steps[1..], id);
      StepComes(w, steps[0], id);
    }
  }

  /**
    A cancelled broadcast can have a PENDING recipient later exactly if a preparation had
    loaded it before the cancellation and nobody had stored it yet.
  */
  lemma LatePreparationAddsRecipients(w: World, id: Identity)
    requires Stamped(w.broadcast) && CanCancel(w.broadcast.status)
    ensures (exists steps :: Waits(Run(Apply(w, Cancel), steps), id)) <==> id !in w.recipients && BeingLoaded(w, id)
  {
    var c := Apply(w, Cancel);
    StampedStep(w, Cancel);
    assert c.preparations == w.preparations && c.recipients.Keys == w.recipients.Keys;
    if steps :| Waits(Run(c, steps), id) {
      RunComes(c, steps, id);
      CancelRows(w, id);
      assert forall call :: LoadedWith(c, call, id) <==> LoadedWith(w, call, id);
    }
    if id !in w.recipients && BeingLoaded(w, id) {
      var call :| call in w.preparations && LoadedWith(w, call, id);
      StoreAdds(c, call, id);
      RunOne(c, Store(call));
    }
  }

  lemma StoreAdds(w: World, call: Uuid, id: Identity)
    requires LoadedWith(w, call, id) && id !in w.recipients
    ensures Waits(Apply(w, Store(call)), id)
  {
    assert id in Elements(w.preparations[call].identities);
  }
}
