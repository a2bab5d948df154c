/** Where each event takes a transaction, and what it asks for on the way. */
module Outcomes {
  import opened Prelude
  import opened Domain
  import opened Converge
  import opened Lifecycle
  import opened LifecycleRuns

  /** The events a state answers. */
  predicate Answers(txn: Transaction, event: Event) {
    match event
    case SnapshotMaterialized(_, _) => txn.Discovered?
    case SnapshotUnavailable => false
    case InboundReceived(_) => !txn.AutoApplied? && !txn.Applied? && !txn.Archived?
    case HoldResolved(_) => txn.HoldAmazon?
    case HoldDeadlineReached => txn.HoldAmazon?
    case Enriched(_) => txn.Enriching?
    case AnswerReceived(_) => txn.AwaitingHuman?
    case ClarifyRequested(_) => txn.AwaitingHuman?
    case PatienceExpired => txn.AwaitingHuman? && txn.flag.Unflagged?
    case WriteVerified(_) => txn.AutoApplied? || txn.Applied?
    case Converged(_) => txn.Revising?
    case ArchiveWindowReached => (txn.Open? || txn.Lapsed?) && txn.core.snapshot.reconciled
    case OverrideDetected(_) => txn.Open?
  }

  /** The events a state lets pass: waiting goes on. */
  predicate LetsPass(txn: Transaction, event: Event) {
    || (txn.Discovered? && event.SnapshotUnavailable?)
    || (txn.AwaitingHuman? && event.PatienceExpired? && !txn.flag.Unflagged?)
    || ((txn.Open? || txn.Lapsed?) && event.ArchiveWindowReached? && !txn.core.snapshot.reconciled)
  }

  /** An event is acted on exactly when the state answers it and the decision it would adopt
      is accepted; it is ignored exactly where waiting goes on; everything else is rejected. */
  lemma {:induction false} ActedOnIff(txn: Transaction, event: Event, now: Instant, policy: Policy)
    ensures var t := Take(txn, Step(event, now), policy);
            && (t.kind.Advanced? <==> Answers(txn, event) && Advance(txn, event, now, policy).Some?)
            && (t.kind.Ignored? && Advance(txn, event, now, policy).Some? <==>
                  LetsPass(txn, event) && txn.Valid())
            && (!t.kind.Advanced? ==> t.next == txn && t.effects == [])
  {
  }

  // ---------- arriving ----------

  /** A snapshot takes a discovered transaction to the hold exactly when it is to be held,
      and otherwise straight to enrichment; what was buffered is replayed. */
  lemma MaterializedGoes(
      txn: Transaction, snapshot: YnabSnapshot, hold: bool, now: Instant, policy: Policy)
    requires txn.Discovered?
    ensures var t := Take(txn, Step(SnapshotMaterialized(snapshot, hold), now), policy);
            && (t.next.HoldAmazon? <==> hold) && (t.next.Enriching? <==> !hold)
            && t.next.core == Core(snapshot, txn.threadId)
            && (hold ==> t.next.amazonDeadline == now + policy.amazonHold
                         && SetTimer(HoldTimer, t.next.amazonDeadline) in t.effects)
            && (!hold ==> t.next.proposal.None?)
            && (txn.pending != [] <==> ReplayBuffered(txn.pending) in t.effects)
            && forall e :: e in t.effects ==> e.SetTimer? || e.ReplayBuffered?
  {
    var effects := Take(txn, Step(SnapshotMaterialized(snapshot, hold), now), policy).effects;
    if hold {
      assert effects[0] in effects;
    }
    if txn.pending != [] {
      assert effects[|effects| - 1] in effects;
    }
  }

  /** Where a signal finds the transaction: it waits for the snapshot, ends a hold, stays
      with what is under way, or reopens what rests. */
  lemma SignalGoes(txn: Transaction, signal: Signal, now: Instant, policy: Policy)
    requires txn.Valid()
    ensures var next := Take(txn, Step(InboundReceived(signal), now), policy).next;
            match txn
            case Discovered(id, thread, pending) =>
              && next == Discovered(id, next.threadId, pending + [signal])
              && next.threadId == (if thread.None? && signal.ReplySignal? then Some(signal.thread) else thread)
            case HoldAmazon(core, _) => next == Enriching(core, None)
            case Open(core, decision) => next == Revising(core, signal, WasApplied, Some(decision))
            case Lapsed(core, _) => next == Revising(core, signal, WasLapsed, None)
            case Revising(core, _, origin, prior) => next == Revising(core, signal, origin, prior)
            case _ => next == txn
  {
  }

  /** A hold ends in enrichment, on the fresh snapshot if there is one, and takes its timer
      along unless that is what ended it. */
  lemma HoldEnds(txn: Transaction, event: Event, now: Instant, policy: Policy)
    requires txn.HoldAmazon? && (event.HoldResolved? || event.HoldDeadlineReached?)
    ensures var t := Take(txn, Step(event, now), policy);
            && t.next == Enriching(Core(if event.HoldResolved? then event.snapshot else txn.core.snapshot,
                                        txn.core.threadId), None)
            && t.effects == if event.HoldResolved? then [CancelTimer(HoldTimer)] else []
  {
  }

  // ---------- deciding ----------

  /** An accepted automatic application is counted and an accepted answer is not; either is
      written, and held until it is verified. */
  lemma DecisionGoes(txn: Transaction, event: Event, now: Instant, policy: Policy)
    requires txn.Enriching? || txn.AwaitingHuman?
    requires Decides(txn, event).Some? && Take(txn, Step(event, now), policy).kind.Advanced?
    ensures var t, decision := Take(txn, Step(event, now), policy), Decides(txn, event).value;
            && t.next == (if txn.Enriching? then AutoApplied(txn.core, decision) else Applied(txn.core, decision))
            && t.effects == [CommitToYnab(decision),
                             if txn.Enriching? then RecordAutoAction(txn.core.snapshot.ynabId)
                             else CancelTimer(PatienceTimer)]
  {
  }

  /** The owner is asked: a proposal opens the conversation or continues it, a question goes
      on with it, and patience starts anew. */
  lemma AskedGoes(txn: Transaction, event: Event, now: Instant, policy: Policy)
    requires (txn.Enriching? && event.Enriched? && event.enriched.AskHuman?)
             || (txn.AwaitingHuman? && event.ClarifyRequested?)
    ensures var t := Take(txn, Step(event, now), policy);
            var deadline := now + policy.patienceWindow;
            && t.next == (if txn.AwaitingHuman? then txn.(patienceDeadline := deadline)
                          else AwaitingHuman(txn.core, deadline, Some(event.enriched.proposal), Unflagged))
            && t.effects == [if txn.AwaitingHuman? then SendThreadMessage(ClarifyMail, Question(event.question), None)
                             else if txn.core.threadId.None? then OpenThread
                             else SendThreadMessage(ProposalMail, NoDetail, None),
                             SetTimer(PatienceTimer, deadline)]
  {
  }

  /** Patience running out hands an unflagged transaction over and ends nothing else. */
  lemma PatienceGoes(txn: Transaction, now: Instant, policy: Policy)
    requires txn.AwaitingHuman?
    ensures var t := Take(txn, Step(PatienceExpired, now), policy);
            && (t.next.Lapsed? <==> txn.flag.Unflagged?)
            && t.next == (if txn.flag.Unflagged? then Lapsed(txn.core, txn.proposal) else txn)
            && t.effects == if txn.flag.Unflagged?
                            then [SendThreadMessage(HandoffMail, NoDetail, None),
                                  SetTimer(ArchiveTimer, now + policy.archiveWindow)] else []
  {
  }

  // ---------- verifying ----------

  /** The wait after a write that did not read back as asked. */
  ghost predicate WaitsFlagged(
      t: Transition, core: Core, flag: AwaitingFlag, mail: Purpose, detail: Detail, about: Option<Decision>,
      deadline: Instant)
  {
    && t.next == AwaitingHuman(core, deadline, None, flag)
    && t.effects == [SendThreadMessage(mail, detail, about), SetTimer(PatienceTimer, deadline)]
  }

  /** A verified write rests, is told of, and, if it was the owner's answer, is learned; one
      that diverged or could not be confirmed waits under its own flag and mail. */
  lemma VerifiedGoes(txn: Transaction, verdict: VerifyOutcome, now: Instant, policy: Policy)
    requires txn.Valid() && InFlight(txn)
    ensures var t := Take(txn, Step(WriteVerified(verdict), now), policy);
            var about := Some(txn.decision);
            match verdict
            case Match =>
              && t.next == Open(txn.core, txn.decision)
              && t.effects == (if txn.Applied?
                               then [Feed(FeedRuleLearning(ConfirmKind, txn.core.snapshot.payee, about, None))] else [])
                              + [SendThreadMessage(if txn.Applied? then ConfirmMail else FyiMail, NoDetail, about),
                                 SetTimer(ArchiveTimer, now + policy.archiveWindow)]
            case Diverged =>
              WaitsFlagged(t, txn.core, FlagDiverged, DivergedMail, NoDetail, about, now + policy.patienceWindow)
            case CouldNotConfirm =>
              WaitsFlagged(t, txn.core, FlagInconsistent, InconsistentMail, NoDetail, about,
                           now + policy.patienceWindow)
  {
  }

  /** A revision that was carried out rests; one that could not be confirmed waits as
      inconsistent, and one contested by YNAB as diverged, with both sides told; one that
      needs the owner asks why; and one that changed nothing goes back to where it came from. */
  lemma ConvergedGoes(txn: Transaction, outcome: ConvergeOutcome, now: Instant, policy: Policy)
    requires Sound(txn) && txn.Revising?
    requires outcome.Reapplied? ==> Committed(txn.core.snapshot.amount, outcome.decision)
    ensures var t := Take(txn, Step(Converged(outcome), now), policy);
            var patience, archive := now + policy.patienceWindow, SetTimer(ArchiveTimer, now + policy.archiveWindow);
            match outcome
            case Reapplied(decision) =>
              && t.next == Open(txn.core, decision) && |t.effects| == 3
              && t.effects[0].Feed? && t.effects[1] == SendThreadMessage(ReviseMail, NoDetail, Some(decision))
              && t.effects[2] == archive
              && (t.effects[0].feed.event.CorrectKind? <==>
                    txn.prior.Some? && txn.prior.value.allocation != decision.allocation)
            case Unchanged =>
              if txn.origin == WasApplied then
                txn.prior.Some? && t.next == Open(txn.core, txn.prior.value) && t.effects == [archive]
              else t.next == AwaitingHuman(txn.core, patience, None, Unflagged)
                   && t.effects == [SetTimer(PatienceTimer, patience)]
            case Unconfirmed => WaitsFlagged(t, txn.core, FlagInconsistent, InconsistentMail, NoDetail, None, patience)
            case Contested(ynab, asked) =>
              WaitsFlagged(t, txn.core, FlagDiverged, DivergedMail, Sides(ynab, asked), None, patience)
            case NeedsHuman(reason) =>
              WaitsFlagged(t, txn.core, Unflagged, ClarifyMail, Question(reason), None, patience)
  {
  }

  // ---------- resting ----------

  /** Past the archive window an applied transaction is archived, as decided, exactly when it
      is reconciled; a lapsed one, as never decided, exactly when it is reconciled and
      categorized, and a reconciled one without a category is told of again. */
  lemma ArchiveGoes(txn: Transaction, now: Instant, policy: Policy)
    requires txn.Open? || txn.Lapsed?
    ensures var t := Take(txn, Step(ArchiveWindowReached, now), policy);
            var settled := txn.core.snapshot.reconciled && (txn.Open? || txn.core.snapshot.categoryId.Some?);
            && (t.next.Archived? <==> settled)
            && t.next == (if settled then Archived(txn.core, if txn.Open? then Some(txn.decision) else None) else txn)
            && t.effects == (if settled then [CloseThread]
                             else if txn.core.snapshot.reconciled then [SendThreadMessage(ArchiveMail, NoDetail, None)]
                             else [])
  {
  }

  /** The owner's edit is adopted, whether that archives the transaction or not; it is taught
      as a correction of the decision it replaces, and answered. */
  lemma OverrideGoes(txn: Transaction, edit: Decision, now: Instant, policy: Policy)
    requires txn.Open? && (txn.core.snapshot.reconciled || Committed(txn.core.snapshot.amount, edit))
    ensures var t := Take(txn, Step(OverrideDetected(edit), now), policy);
            && (t.next.Archived? <==> txn.core.snapshot.reconciled)
            && t.next == (if txn.core.snapshot.reconciled then Archived(txn.core, Some(edit)) else Open(txn.core, edit))
            && t.effects == [Feed(FeedRuleLearning(CorrectKind, txn.core.snapshot.payee, Some(edit),
                                                   Some(txn.decision))),
                             SendThreadMessage(OverrideMail, NoDetail, Some(edit))]
                            + if txn.core.snapshot.reconciled then [CloseThread] else []
  {
  }
}
