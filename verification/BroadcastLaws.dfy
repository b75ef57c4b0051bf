/**
  When a broadcast becomes COMPLETED, and what a completed one has left to send.
*/
module BroadcastLaws {
  import opened Collections
  import opened Broadcasts
  import opened BroadcastCancellation

  predicate Unfinished(r: Recipient) {
    r.status == R_PENDING || r.status == R_QUEUED || r.status == R_PROCESSING
  }

  predicate NobodyUnfinished(rs: Recipients) {
    forall id :: id in rs ==> !Unfinished(rs[id])
  }

  // --- What completes a broadcast ---

  lemma TerminalMeans(rs: Recipients)
    ensures AllTerminal(rs) <==> NobodyUnfinished(rs)
  {}

  lemma CountDecides(w: World, call: Uuid)
    requires At(w, call) && w.preparations[call].Queueing? && w.preparations[call].pending == []
    ensures ApplyPreparation(w, Count(call)) == w.(preparations :=
      if NobodyUnfinished(w.recipients) then w.preparations[call := Counted] else w.preparations - {call})
  {
    TerminalMeans(w.recipients);
  }

  lemma CompleteWrites(w: World, call: Uuid)
    ensures var b := w.broadcast;
      ApplyPreparation(w, Complete(call)) ==
      if At(w, call) && w.preparations[call].Counted? then
        w.(preparations := w.preparations - {call},
           broadcast := if b.status == RUNNING then b.(status := COMPLETED, completedAt := true) else b)
      else w
  {}

  /** After the queueing loop: count, then complete. */
  lemma CountThenComplete(w: World, call: Uuid)
    requires At(w, call) && w.preparations[call].Queueing? && w.preparations[call].pending == []
    ensures var t := Run(w, [Count(call)] + [Complete(call)]);
      && t == w.(preparations := w.preparations - {call}, broadcast := t.broadcast)
      && t.broadcast == if w.broadcast.status == RUNNING && NobodyUnfinished(w.recipients)
                        then w.broadcast.(status := COMPLETED, completedAt := true) else w.broadcast
  {
    var counted := Apply(w, Count(call));
    CountDecides(w, call);
    CompleteWrites(counted, call);
    assert w.preparations[call := Counted] - {call} == w.preparations - {call};
    RunCons(w, Count(call), [Complete(call)]);
    RunOne(counted, Complete(call));
  }

  /** A report that is followed by the count. */
  lemma ReportCompletes(w: World, to: Identity, report: Report)
    requires Linked(w, to) && Reportable(report)
    ensures var t := Apply(w, Deliver(to, report));
      t.broadcast == if w.broadcast.status == RUNNING && report.counted && NobodyUnfinished(t.recipients)
                     then w.broadcast.(status := COMPLETED, completedAt := true) else w.broadcast
  {
    var t := Apply(w, Deliver(to, report));
    TerminalMeans(t.recipients);
  }

  /** Storing moves a PREPARING broadcast on: to COMPLETED at once if there is nobody to send to. */
  lemma StoreMovesOn(w: World, call: Uuid)
    requires At(w, call) && w.preparations[call].Loaded?
    ensures var b, c := w.broadcast, Apply(w, Store(call)).broadcast;
      if b.status != PREPARING then c == b
      else if |w.preparations[call].identities| == 0 then c == b.(status := COMPLETED, completedAt := true)
      else c.status == RUNNING && !c.completedAt
  {}

  // --- Completed broadcasts over runs ---

  /** The step leaves somebody unfinished who was not, or was not there. */
  predicate Revives(w: World, s: Step) {
    exists id :: id in Apply(w, s).recipients && Unfinished(Apply(w, s).recipients[id])
      && (id in w.recipients ==> !Unfinished(w.recipients[id]))
  }

  predicate AnyCounted(w: World) {
    exists call :: call in w.preparations && w.preparations[call].Counted?
  }

  /** Completed, archived after completion, or counted and about to be completed. */
  predicate Concluded(w: World) {
    w.broadcast.status == COMPLETED || (w.broadcast.status == ARCHIVED && w.broadcast.completedAt) || AnyCounted(w)
  }

  /** Before the first preparation there is nobody to send to. */
  predicate NotStarted(w: World) {
    w.recipients == map[] && w.preparations == map[]
  }

  predicate Unstamped(b: Broadcast) {
    !b.completedAt && !b.cancelledAt && !b.failedAt
  }

  predicate BeforeLaunch(b: Broadcast) {
    b.status == DRAFT || b.status == SCHEDULED || (b.status == ARCHIVED && Unstamped(b))
  }

  predicate StartsEmpty(w: World) {
    && (BeforeLaunch(w.broadcast) ==> NotStarted(w))
    && (w.broadcast.status == PREPARING ==> w.recipients == map[])
  }

  predicate Settled(w: World) {
    Concluded(w) ==> NobodyUnfinished(w.recipients)
  }

  lemma CallStartsEmpty(w: World, s: Step)
    requires Stamped(w.broadcast) && StartsEmpty(w) && IsCall(s)
    ensures StartsEmpty(ApplyCall(w, s))
  {
    var t := ApplyCall(w, s);
    if s.Cancel? && CanCancel(w.broadcast.status) {
      assert t.broadcast.status == CANCELLED;
    } else {
      assert RowsUntouched(w, t) && t.preparations == w.preparations;
    }
  }

  lemma PreparationStartsEmpty(w: World, s: Step)
    requires Stamped(w.broadcast) && StartsEmpty(w) && IsPreparation(s)
    ensures StartsEmpty(ApplyPreparation(w, s))
  {
    if s.Load? || s.List? || s.Count? || s.Complete? {
      BookkeepingUntouched(w, s);
    }
  }

  lemma DeliveryKeepsKeys(w: World, s: Step)
    requires IsDelivery(s)
    ensures ApplyDelivery(w, s).recipients.Keys == w.recipients.Keys
  {}

  lemma DeliveryKeepsPreparations(w: World, s: Step)
    requires IsDelivery(s)
    ensures ApplyDelivery(w, s).preparations == w.preparations
  {}

  lemma DeliveryCompletes(w: World, s: Step)
    requires IsDelivery(s)
    ensures var t := ApplyDelivery(w, s);
      t.broadcast == w.broadcast
      || (w.broadcast.status == RUNNING && t.broadcast.status == COMPLETED && NobodyUnfinished(t.recipients))
  {
    if s.Deliver? && Linked(w, s.to) && Reportable(s.report) {
      ReportCompletes(w, s.to, s.report);
    }
  }

  lemma PreparationKeepsKeys(w: World, s: Step)
    requires IsPreparation(s) && !s.Store?
    ensures ApplyPreparation(w, s).recipients.Keys == w.recipients.Keys
  {
    if !s.QueueNext? { BookkeepingUntouched(w, s); }
  }

  lemma OthersKeepKeys(w: World, s: Step)
    requires IsCall(s) || IsRetry(s) || IsOperator(s)
    ensures Apply(w, s).recipients.Keys == w.recipients.Keys
  {}

  /** Only storing adds recipients, and nothing removes them. */
  lemma RecipientsComeByStoring(w: World, s: Step)
    requires !s.Store?
    ensures Apply(w, s).recipients.Keys == w.recipients.Keys
  {
    if IsDelivery(s) {
      DeliveryKeepsKeys(w, s);
    } else if IsPreparation(s) {
      PreparationKeepsKeys(w, s);
    } else {
      OthersKeepKeys(w, s);
    }
  }

  lemma StepStartsEmpty(w: World, s: Step)
    requires Stamped(w.broadcast) && StartsEmpty(w)
    ensures StartsEmpty(Apply(w, s))
  {
    if IsCall(s) {
      CallStartsEmpty(w, s);
    } else if IsPreparation(s) {
      PreparationStartsEmpty(w, s);
    } else if IsDelivery(s) {
      DeliveryKeepsKeys(w, s);
      DeliveryKeepsPreparations(w, s);
      DeliveryCompletes(w, s);
    } else {
      OthersLeaveBroadcast(w, s);
      OthersKeepKeys(w, s);
      RetryKeepsPreparations(w, s);
    }
  }

  lemma CountConcludes(w: World, s: Step)
    requires s.Count? && Concluded(ApplyPreparation(w, s))
    ensures Concluded(w) || NobodyUnfinished(ApplyPreparation(w, s).recipients)
  {
    TerminalMeans(w.recipients);
  }

  lemma StoreConcludes(w: World, s: Step)
    requires s.Store? && StartsEmpty(w) && Concluded(ApplyPreparation(w, s))
    ensures Concluded(w) || NobodyUnfinished(ApplyPreparation(w, s).recipients)
  {
    assert Elements<Identity>([]) == {};
    assert Added(map[], []) == map[];
  }

  lemma QueueingAdvances(w: World, id: Identity, message: Uuid, outbox: Uuid)
    requires id in w.recipients
    ensures var t := QueueTransaction(w, id, message, outbox);
      t.broadcast == w.broadcast && t.preparations == w.preparations
  {}

  /** One turn of the queueing loop: of the preparations only its own goes on, or ends. */
  lemma QueueTurn(w: World, call: Uuid, missing: bool, message: Uuid, outbox: Uuid)
    requires At(w, call) && w.preparations[call].Queueing? && w.preparations[call].pending != []
    ensures var t := ApplyQueue(w, call, missing, message, outbox); var p := w.preparations[call];
      && t.broadcast == w.broadcast
      && (t.preparations == w.preparations || t.preparations == w.preparations - {call}
          || t.preparations == w.preparations[call := Queueing(p.identities, p.pending[1..])])
  {
    var p := w.preparations[call];
    var id := p.pending[0];
    var next := w.(preparations := w.preparations[call := Queueing(p.identities, p.pending[1..])]);
    var t := ApplyQueue(w, call, missing, message, outbox);
    if id in p.identities && id in w.recipients && !missing && w.broadcast.status == RUNNING {
      if KeyTaken(w.outboxes, id) {
        assert t == w.(preparations := w.preparations - {call});
      } else if message !in w.messages && outbox !in w.outboxes {
        QueueingAdvances(next, id, message, outbox);
      }
    }
  }

  lemma QueueCountsNobody(w: World, s: Step)
    requires s.QueueNext?
    ensures ApplyPreparation(w, s).broadcast == w.broadcast && (AnyCounted(ApplyPreparation(w, s)) ==> AnyCounted(w))
  {
    var t := ApplyPreparation(w, s);
    if At(w, s.call) && w.preparations[s.call].Queueing? && w.preparations[s.call].pending != [] {
      QueueTurn(w, s.call, s.missing, s.message, s.outbox);
      var p := w.preparations[s.call];
      var turned := Queueing(p.identities, p.pending[1..]);
      assert turned.Queueing?;
      TurnCounts(w, t, s.call);
    }
  }

  lemma TurnCounts(w: World, t: World, call: Uuid)
    requires call in w.preparations && w.preparations[call].Queueing?
    requires t.preparations == w.preparations || t.preparations == w.preparations - {call}
      || exists p: Preparation :: p.Queueing? && t.preparations == w.preparations[call := p]
    ensures AnyCounted(t) ==> AnyCounted(w)
  {
    if AnyCounted(t) {
      var c :| c in t.preparations && t.preparations[c].Counted?;
      assert c in w.preparations && w.preparations[c].Counted?;
    }
  }

  lemma ReadsCountNobody(w: World, s: Step)
    requires s.Load? || s.List?
    ensures ApplyPreparation(w, s).broadcast == w.broadcast && (AnyCounted(ApplyPreparation(w, s)) ==> AnyCounted(w))
  {
    var t := ApplyPreparation(w, s);
    if AnyCounted(t) {
      var call :| call in t.preparations && t.preparations[call].Counted?;
      assert call in w.preparations && w.preparations[call].Counted?;
    }
  }

  lemma CompleteConcludes(w: World, call: Uuid)
    requires Concluded(ApplyPreparation(w, Complete(call)))
    ensures Concluded(w)
  {
    var t := ApplyPreparation(w, Complete(call));
    CompleteWrites(w, call);
    if t != w {
      assert call in w.preparations && w.preparations[call].Counted?;
    }
  }

  lemma CallConcludes(w: World, s: Step)
    requires Stamped(w.broadcast) && IsCall(s) && Concluded(ApplyCall(w, s))
    ensures Concluded(w)
  {
    var t := ApplyCall(w, s);
    assert t.preparations == w.preparations;
    CallWritesBroadcast(w, s);
    if AnyCounted(t) {
      var call :| call in t.preparations && t.preparations[call].Counted?;
      assert AnyCounted(w);
    }
  }

  lemma SameConcludes(w: World, t: World)
    requires t.preparations == w.preparations && t.broadcast == w.broadcast
    ensures Concluded(t) <==> Concluded(w)
  {
    assert AnyCounted(t) <==> AnyCounted(w);
  }

  lemma DeliveryConcludes(w: World, s: Step)
    requires IsDelivery(s) && Concluded(ApplyDelivery(w, s))
    ensures Concluded(w) || NobodyUnfinished(ApplyDelivery(w, s).recipients)
  {
    var t := ApplyDelivery(w, s);
    DeliveryKeepsPreparations(w, s);
    DeliveryCompletes(w, s);
    assert AnyCounted(t) <==> AnyCounted(w);
  }

  lemma PreparationConcludes(w: World, s: Step)
    requires IsPreparation(s) && StartsEmpty(w) && Concluded(ApplyPreparation(w, s))
    ensures Concluded(w) || NobodyUnfinished(ApplyPreparation(w, s).recipients)
  {
    if s.Count? {
      CountConcludes(w, s);
    } else if s.Store? {
      StoreConcludes(w, s);
    } else if s.QueueNext? {
      QueueCountsNobody(w, s);
    } else if s.Complete? {
      CompleteConcludes(w, s.call);
    } else {
      ReadsCountNobody(w, s);
    }
  }

  lemma OnlyRetryKeepsPreparations(w: World, s: Step)
    requires IsRetry(s)
    ensures ApplyRetry(w, s).preparations == w.preparations
  {}

  lemma OperatorKeepsPreparations(w: World, s: Step)
    requires IsOperator(s)
    ensures ApplyOperator(w, s).preparations == w.preparations
  {}

  lemma RetryKeepsPreparations(w: World, s: Step)
    requires IsRetry(s) || IsOperator(s)
    ensures Apply(w, s).preparations == w.preparations
  {
    if IsRetry(s) {
      OnlyRetryKeepsPreparations(w, s);
    } else {
      OperatorKeepsPreparations(w, s);
    }
  }

  /** A step that concludes, where nothing had, leaves nobody unfinished. */
  lemma StepConcludes(w: World, s: Step)
    requires Stamped(w.broadcast) && StartsEmpty(w) && Concluded(Apply(w, s))
    ensures Concluded(w) || NobodyUnfinished(Apply(w, s).recipients)
  {
    if IsCall(s) {
      CallConcludes(w, s);
    } else if IsDelivery(s) {
      DeliveryConcludes(w, s);
    } else if IsPreparation(s) {
      PreparationConcludes(w, s);
    } else {
      OthersLeaveBroadcast(w, s);
      RetryKeepsPreparations(w, s);
      SameConcludes(w, Apply(w, s));
    }
  }

  /** From the count on, and after completion, no step leaves anybody unfinished who was not. */
  predicate Undisturbed(w: World, steps: seq<Step>)
    decreases |steps|
  {
    steps != [] ==> (Concluded(w) ==> !Revives(w, steps[0])) && Undisturbed(Apply(w, steps[0]), steps[1..])
  }

  lemma QuietSettled(t: World, w: World, s: Step)
    requires t == Apply(w, s) && NobodyUnfinished(w.recipients) && !Revives(w, s)
    ensures NobodyUnfinished(t.recipients)
  {}

  lemma {:induction false} RunSettled(w: World, steps: seq<Step>)
    requires Stamped(w.broadcast) && StartsEmpty(w) && Settled(w) && Undisturbed(w, steps)
    ensures Settled(Run(w, steps))
    decreases |steps|
  {
    if steps != [] {
      var t := Apply(w, steps[0]);
      StampedStep(w, steps[0]);
      StepStartsEmpty(w, steps[0]);
      if Concluded(w) {
        QuietSettled(t, w, steps[0]);
      } else if Concluded(t) {
        StepConcludes(w, steps[0]);
      }
      RunSettled(t, steps[1..]);
    }
  }

  /**
    A broadcast that ends a run COMPLETED has nobody PENDING, QUEUED or PROCESSING, unless
    some step revived a recipient between the count and the completion or after it.
  */
  lemma CompletedIsFinished(scheduled: bool, channel: Channel, steps: seq<Step>)
    requires Undisturbed(Created(scheduled, channel), steps)
    requires Run(Created(scheduled, channel), steps).broadcast.status == COMPLETED
    ensures forall id :: id in Run(Created(scheduled, channel), steps).recipients ==>
      Run(Created(scheduled, channel), steps).recipients[id].status !in {R_PENDING, R_QUEUED, R_PROCESSING}
  {
    RunSettled(Created(scheduled, channel), steps);
  }

  /** The steps that can: a late preparation, a deferral, a retry, and an operator. */
  lemma RevivingSteps(w: World, s: Step)
    requires Revives(w, s)
    ensures s.Store? || s.Defer? || s.CommitRetry? || s.RetryRow? || (s.Reconcile? && !s.applied)
  {
    var id :| id in Apply(w, s).recipients && Unfinished(Apply(w, s).recipients[id])
      && (id in w.recipients ==> !Unfinished(w.recipients[id]));
    if !(s.Store? || s.Defer? || s.CommitRetry? || s.RetryRow? || (s.Reconcile? && !s.applied)) {
      RecipientsComeByStoring(w, s);
      OthersReviveNobody(w, s, id);
    }
  }

  lemma OthersReviveNobody(w: World, s: Step, id: Identity)
    requires !(s.Store? || s.Defer? || s.CommitRetry? || s.RetryRow? || (s.Reconcile? && !s.applied))
    requires id in w.recipients && !Unfinished(w.recipients[id])
    ensures id in Apply(w, s).recipients && !Unfinished(Apply(w, s).recipients[id])
  {
    if IsCall(s) {
      CallRevivesNobody(w, s, id);
    } else if IsPreparation(s) {
      PreparationRevivesNobody(w, s, id);
    } else if IsDelivery(s) {
      DeliveryRevivesNobody(w, s, id);
    } else {
      RetryRevivesNobody(w, s, id);
    }
  }

  lemma DeliveryRevivesNobody(w: World, s: Step, id: Identity)
    requires IsDelivery(s) && !s.Defer? && id in w.recipients && !Unfinished(w.recipients[id])
    ensures id in ApplyDelivery(w, s).recipients && !Unfinished(ApplyDelivery(w, s).recipients[id])
  {}

  lemma RetryRevivesNobody(w: World, s: Step, id: Identity)
    requires (IsRetry(s) && !s.CommitRetry?) || (s.Reconcile? && s.applied)
    requires id in w.recipients && !Unfinished(w.recipients[id])
    ensures id in Apply(w, s).recipients && !Unfinished(Apply(w, s).recipients[id])
  {}

  lemma CallRevivesNobody(w: World, s: Step, id: Identity)
    requires IsCall(s) && id in w.recipients && !Unfinished(w.recipients[id])
    ensures id in ApplyCall(w, s).recipients && !Unfinished(ApplyCall(w, s).recipients[id])
  {}

  lemma PreparationRevivesNobody(w: World, s: Step, id: Identity)
    requires IsPreparation(s) && !s.Store? && id in w.recipients && !Unfinished(w.recipients[id])
    ensures id in ApplyPreparation(w, s).recipients && !Unfinished(ApplyPreparation(w, s).recipients[id])
  {}
}
