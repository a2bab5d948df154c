/** The per-transaction driver: it feeds events to the state machine, carries the effects
    out, and owns the queue of inbound signals. Activities are its parameters. */
module LifecycleWorkflow {
  import opened Prelude
  import opened Domain
  import opened Converge
  import opened Lifecycle
  import opened LifecycleRuns
  import opened Allocations
  import Outcomes

  datatype Interpretation = Answer(decision: Decision) | FollowUp(question: string)

  /** What the activities of one dispatch return: the read-back after a commit, the time
      it is verified at, and the id of a thread should one be threadsOpened. */
  datatype Activities = Activities(readBack: Option<TargetState>, verifiedAt: Instant, newThread: string)

  function ThreadOf(txn: Transaction): Option<string> {
    if txn.Discovered? then txn.threadId else txn.core.threadId
  }

  function Bound(txn: Transaction, thread: string): Transaction {
    if txn.Discovered? then txn else txn.(core := txn.core.(threadId := Some(thread)))
  }

  /** Apart from the thread it is bound to, the transaction is the same. */
  predicate SameButThread(a: Transaction, b: Transaction) {
    if a.Discovered? || b.Discovered? then a == b
    else a.(core := a.core.(threadId := None)) == b.(core := b.core.(threadId := None))
  }

  /** Where a dispatched event leaves the transaction: a write it starts is verified
      before the dispatch returns. */
  function Settled(txn: Transaction, step: Step, activities: Activities): Transaction {
    var t := Take(txn, step, DEFAULT_POLICY);
    if !t.kind.Advanced? || !InFlight(t.next) then t.next
    else
      var verdict := ClassifyVerify(activities.readBack, TargetOf(t.next.decision));
      Take(t.next, Step(WriteVerified(verdict), activities.verifiedAt), DEFAULT_POLICY).next
  }

  /** Where a step of the loop leaves the transaction: where its event does, or where it
      was when the event carries a decision no state accepts. */
  predicate Follows(before: Transaction, event: Event, now: Instant, activities: Activities, after: Transaction) {
    if Advance(before, event, now, DEFAULT_POLICY).None? then after == before
    else SameButThread(after, Settled(before, Step(event, now), activities))
  }

  function ReadAs(reading: Interpretation): Event {
    match reading
    case Answer(decision) => AnswerReceived(decision)
    case FollowUp(question) => ClarifyRequested(question)
  }

  /** What wakes a transaction without a snapshot, in order of precedence. */
  function DiscoveredEvent(
      fetched: Option<YnabSnapshot>, ready: Option<YnabSnapshot>, queue: seq<Signal>, hold: YnabSnapshot -> bool): Event
  {
    if fetched.Some? then SnapshotMaterialized(fetched.value, hold(fetched.value))
    else if ready.Some? then SnapshotMaterialized(ready.value, hold(ready.value))
    else if queue != [] then InboundReceived(queue[0])
    else SnapshotUnavailable
  }

  /** What a resting applied transaction hears of once its archive window has passed: the
      owner's own edit, when YNAB shows another allocation than the one applied. */
  function RestEvent(txn: Transaction, read: Option<TargetState>, now: Instant): Event
    requires txn.Open?
  {
    if read.Some? && read.value.allocation != txn.decision.allocation
    then OverrideDetected(Decision(read.value.allocation, read.value.memo, read.value.approved, Human, now, None))
    else ArchiveWindowReached
  }

  /** Nobody edited what the agent applied, so it still verifies; yet at archive time it is
      taken for the owner's edit exactly when it is a split read back in another order. */
  lemma {:induction false} OverrideWithoutEditIff(txn: Transaction, read: TargetState, now: Instant)
    requires txn.Open? && ClassifyVerify(Some(read), TargetOf(txn.decision)) == Match
    ensures RestEvent(txn, Some(read), now).OverrideDetected? <==>
            txn.decision.allocation.ResolvedSplit? && read.allocation.ResolvedSplit?
            && read.allocation.lines != txn.decision.allocation.lines
  {
    VerdictIff(Some(read), TargetOf(txn.decision));
  }

  /** And so it is for every faithful split, whatever the new order. */
  lemma {:induction false} ReorderedReadIsTakenForEdit(txn: Transaction, read: TargetState, now: Instant)
    requires txn.Open? && txn.decision.allocation.ResolvedSplit? && KeyFaithful(txn.decision.allocation.lines)
    requires read.approved == txn.decision.approved && read.memo == txn.decision.memo
    requires read.allocation.ResolvedSplit? && read.allocation.lines != txn.decision.allocation.lines
    requires multiset(read.allocation.lines) == multiset(txn.decision.allocation.lines)
    ensures ClassifyVerify(Some(read), TargetOf(txn.decision)) == Match
    ensures RestEvent(txn, Some(read), now).OverrideDetected?
  {
    LandedWriteMatches(TargetOf(txn.decision), read);
  }

  /** What ends a hold, in order of precedence. */
  function HoldEvent(ready: Option<YnabSnapshot>, queue: seq<Signal>): Event {
    if ready.Some? then HoldResolved(ready.value)
    else if queue != [] then InboundReceived(queue[0])
    else HoldDeadlineReached
  }

  predicate ArchiveAtRest(txn: Transaction, deadlines: Timers) {
    ArchiveTimer in deadlines ==> txn.Open? || txn.Lapsed? || txn.Archived?
  }

  /** The step orders a write: the event's decision is adopted and goes out to YNAB. */
  predicate StartsWrite(txn: Transaction, step: Step) {
    Take(txn, step, DEFAULT_POLICY).kind.Advanced? && InFlight(Take(txn, step, DEFAULT_POLICY).next)
  }

  /** A write is started only from a state waiting for a decision, by its first effect;
      nothing that follows it there touches the queue, the thread or an archive timer. */
  lemma WriteShape(txn: Transaction, step: Step, k: nat)
    requires StartsWrite(txn, step) && k < |Take(txn, step, DEFAULT_POLICY).effects|
    ensures txn.Enriching? || txn.AwaitingHuman?
    ensures var t := Take(txn, step, DEFAULT_POLICY);
            if k == 0 then t.effects[k] == CommitToYnab(t.next.decision)
            else t.effects[k].RecordAutoAction? || t.effects[k] == CancelTimer(PatienceTimer)
  {
  }

  lemma PlainShape(txn: Transaction, step: Step, k: nat)
    requires !StartsWrite(txn, step) && k < |Take(txn, step, DEFAULT_POLICY).effects|
    ensures var t := Take(txn, step, DEFAULT_POLICY);
            && !t.effects[k].CommitToYnab?
            && (t.effects[k].OpenThread? ==> k == 0 && ThreadOf(t.next).None? && !t.next.Discovered?)
            && (t.effects[k].SendThreadMessage? ==> !t.next.Discovered?)
  {
    hide Take, ThreadOf, StartsWrite;
    MailShape(txn, step, k);
    OnlyWritesCommit(txn, step, k);
  }

  lemma MailShape(txn: Transaction, step: Step, k: nat)
    requires k < |Take(txn, step, DEFAULT_POLICY).effects|
    ensures var t := Take(txn, step, DEFAULT_POLICY);
            && (t.effects[k].OpenThread? ==> k == 0 && ThreadOf(t.next).None? && !t.next.Discovered?)
            && (t.effects[k].SendThreadMessage? ==> !t.next.Discovered?)
  {
  }

  lemma OnlyWritesCommit(txn: Transaction, step: Step, k: nat)
    requires k < |Take(txn, step, DEFAULT_POLICY).effects|
    ensures Take(txn, step, DEFAULT_POLICY).effects[k].CommitToYnab? ==> StartsWrite(txn, step)
  {
  }

  lemma ThreadStep(txn: Transaction, step: Step)
    ensures var next := Take(txn, step, DEFAULT_POLICY).next;
            ThreadOf(txn).Some? ==> ThreadOf(next) == ThreadOf(txn)
  {
  }

  lemma WriteStands(txn: Transaction, step: Step)
    requires StartsWrite(txn, step)
    ensures |Take(txn, step, DEFAULT_POLICY).effects| > 0 && (txn.Enriching? || txn.AwaitingHuman?)
    ensures step.event.Enriched? || step.event.AnswerReceived?
  {
    WriteHasEffects(txn, step);
    DecidedWrite(txn, step);
  }

  lemma WriteHasEffects(txn: Transaction, step: Step)
    requires StartsWrite(txn, step)
    ensures |Take(txn, step, DEFAULT_POLICY).effects| > 0
  {
  }

  lemma DecidedWrite(txn: Transaction, step: Step)
    requires StartsWrite(txn, step)
    ensures Decides(txn, step.event).Some?
  {
    hide Take;
    VerifyStep(txn, step, DEFAULT_POLICY);
  }

  lemma PlainRests(txn: Transaction, step: Step)
    requires Sound(txn) && !StartsWrite(txn, step) && (InFlight(txn) ==> step.event.WriteVerified?)
    ensures !InFlight(Take(txn, step, DEFAULT_POLICY).next)
  {
    if InFlight(txn) {
      VerifyNeverRaises(txn, step.event.verdict, step.now);
    }
  }

  lemma BufferedOrReplayed(txn: Transaction, step: Step)
    ensures var t := Take(txn, step, DEFAULT_POLICY); t.next.Discovered? ==> t.effects == []
  {
  }

  lemma {:induction false} ArchiveStep(txn: Transaction, step: Step, armed: Timers)
    requires ArchiveAtRest(txn, armed) && !StartsWrite(txn, step)
    ensures var t := Take(txn, step, DEFAULT_POLICY); ArchiveAtRest(t.next, Arm(armed, t.effects))
  {
    hide Take;
    ArmStep(txn, step, DEFAULT_POLICY, armed);
    ArchiveRearmed(txn, step, armed);
  }

  lemma ArchiveRearmed(txn: Transaction, step: Step, armed: Timers)
    requires ArchiveAtRest(txn, armed)
    ensures var t := Take(txn, step, DEFAULT_POLICY); ArchiveAtRest(t.next, Rearmed(armed, t.effects))
  {
  }

  function SignalsOf(effect: Effect): seq<Signal> {
    if effect.ReplayBuffered? then effect.signals else []
  }

  lemma NothingYet(armed: Timers)
    ensures Arm(armed, []) == armed && Replays([]) == []
  {
  }

  lemma ArmNext(armed: Timers, effects: seq<Effect>, i: nat)
    requires i < |effects|
    ensures Arm(armed, effects[..i + 1]) == ArmBy(Arm(armed, effects[..i]), effects[i])
  {
    assert effects[..i + 1][..i] == effects[..i];
  }

  lemma {:induction false} ReplayNext(txn: Transaction, step: Step, i: nat)
    requires i < |Take(txn, step, DEFAULT_POLICY).effects|
    ensures var effects := Take(txn, step, DEFAULT_POLICY).effects;
            Replays(effects[..i]) == [] && Replays(effects[..i + 1]) == SignalsOf(effects[i])
  {
    hide Take;
    var effects := Take(txn, step, DEFAULT_POLICY).effects;
    ReplayIsLast(txn, step, DEFAULT_POLICY);
    assert effects[..i + 1][..i] == effects[..i];
    NoReplay(effects[..i]);
  }

  lemma VerifyNeverRaises(txn: Transaction, verdict: VerifyOutcome, now: Instant)
    requires Sound(txn) && InFlight(txn)
    ensures Advance(txn, WriteVerified(verdict), now, DEFAULT_POLICY).Some?
  {
    RaisesIff(txn, WriteVerified(verdict), now, DEFAULT_POLICY);
  }

  lemma QueueKept(
      acted: seq<Signal>, buffer: seq<Signal>, queue: seq<Signal>,
      was: seq<Signal>, taken: seq<Signal>, rest: seq<Signal>)
    requires buffer + queue == was + taken + rest
    ensures acted + buffer + queue == acted + was + (taken + rest)
  {
    assert acted + buffer + queue == acted + (buffer + queue);
    assert acted + was + (taken + rest) == acted + (was + taken + rest);
  }

  lemma NotInbound(txn: Transaction, step: Step)
    requires !step.event.InboundReceived?
    ensures TakenIn(txn, step, DEFAULT_POLICY) == []
  {
  }

  /** Every state a signal can find the driver in takes it. */
  lemma InboundAccepted(txn: Transaction, signal: Signal, now: Instant)
    requires Sound(txn) && !InFlight(txn) && !txn.Archived?
    ensures var step := Step(InboundReceived(signal), now);
            && Advance(txn, step.event, now, DEFAULT_POLICY).Some?
            && TakenIn(txn, step, DEFAULT_POLICY) == (if txn.Open? || txn.Lapsed? then [] else [signal])
            && !StartsWrite(txn, step)
  {
    RaisesIff(txn, InboundReceived(signal), now, DEFAULT_POLICY);
  }

  // ---------- where the loop's steps end ----------

  /** The transaction shows how the write of the decision ended: it rests on it exactly when
      it read back as written, and otherwise waits under the flag of the verdict. */
  predicate WriteEnded(after: Transaction, decision: Decision, readBack: Option<TargetState>) {
    match ClassifyVerify(readBack, TargetOf(decision))
    case Match => after.Open? && after.decision == decision
    case Diverged => after.AwaitingHuman? && after.flag == FlagDiverged && after.proposal.None?
    case CouldNotConfirm => after.AwaitingHuman? && after.flag == FlagInconsistent && after.proposal.None?
  }

  lemma DiscoveredSettles(
      txn: Transaction, snapshot: YnabSnapshot, hold: bool, now: Instant, activities: Activities)
    requires txn.Discovered?
    ensures var event := SnapshotMaterialized(snapshot, hold);
            var next := Settled(txn, Step(event, now), activities);
            && Advance(txn, event, now, DEFAULT_POLICY).Some? && !next.Discovered?
            && (next.HoldAmazon? <==> hold) && (next.Enriching? <==> !hold) && next.core.snapshot == snapshot
            && (hold ==> next.amazonDeadline == now + DEFAULT_POLICY.amazonHold)
  {
    Outcomes.MaterializedGoes(txn, snapshot, hold, now, DEFAULT_POLICY);
  }

  lemma SignalSettles(txn: Transaction, signal: Signal, now: Instant, activities: Activities)
    requires txn.Discovered? || txn.HoldAmazon?
    ensures var next := Settled(txn, Step(InboundReceived(signal), now), activities);
            && Advance(txn, InboundReceived(signal), now, DEFAULT_POLICY).Some?
            && (txn.Discovered? ==> next.Discovered? && next.pending == txn.pending + [signal])
            && (txn.HoldAmazon? ==> next == Enriching(txn.core, None))
  {
    Outcomes.SignalGoes(txn, signal, now, DEFAULT_POLICY);
  }

  lemma HoldSettles(txn: Transaction, event: Event, now: Instant, activities: Activities)
    requires txn.HoldAmazon? && (event.HoldResolved? || event.HoldDeadlineReached?)
    ensures var next := Settled(txn, Step(event, now), activities);
            && Advance(txn, event, now, DEFAULT_POLICY).Some? && next.Enriching?
            && next.core.snapshot == if event.HoldResolved? then event.snapshot else txn.core.snapshot
  {
    Outcomes.HoldEnds(txn, event, now, DEFAULT_POLICY);
  }

  lemma {:induction false} WriteSettles(txn: Transaction, event: Event, now: Instant, activities: Activities)
    requires Sound(txn) && (txn.Enriching? || txn.AwaitingHuman?) && Decides(txn, event).Some?
    requires Advance(txn, event, now, DEFAULT_POLICY).Some?
    ensures var next := Settled(txn, Step(event, now), activities);
            && WriteEnded(next, Decides(txn, event).value, activities.readBack)
            && !next.Discovered? && next.core == txn.core
  {
    hide Advance, Handle, ClassifyVerify;
    var t, decision := Take(txn, Step(event, now), DEFAULT_POLICY), Decides(txn, event).value;
    WriteIsTaken(txn, event, now);
    Outcomes.DecisionGoes(txn, event, now, DEFAULT_POLICY);
    SoundStep(txn, event, now, DEFAULT_POLICY);
    var verdict := ClassifyVerify(activities.readBack, TargetOf(decision));
    Outcomes.VerifiedGoes(t.next, verdict, activities.verifiedAt, DEFAULT_POLICY);
  }

  lemma WriteIsTaken(txn: Transaction, event: Event, now: Instant)
    requires (txn.Enriching? || txn.AwaitingHuman?) && Decides(txn, event).Some?
    requires Advance(txn, event, now, DEFAULT_POLICY).Some?
    ensures Take(txn, Step(event, now), DEFAULT_POLICY).kind.Advanced?
    ensures Take(txn, Step(event, now), DEFAULT_POLICY) == Advance(txn, event, now, DEFAULT_POLICY).value
  {
  }

  lemma AskSettles(txn: Transaction, event: Event, now: Instant, activities: Activities)
    requires (txn.Enriching? && event.Enriched? && event.enriched.AskHuman?)
             || (txn.AwaitingHuman? && event.ClarifyRequested?)
    ensures var next := Settled(txn, Step(event, now), activities);
            && Advance(txn, event, now, DEFAULT_POLICY).Some? && next.AwaitingHuman? && next.core == txn.core
            && next.flag == (if txn.AwaitingHuman? then txn.flag else Unflagged)
            && next.proposal == if txn.AwaitingHuman? then txn.proposal else Some(event.enriched.proposal)
  {
    Outcomes.AskedGoes(txn, event, now, DEFAULT_POLICY);
  }

  lemma {:induction false} EnrichedSettles(
      txn: Transaction, outcome: EnrichmentOutcome, now: Instant, activities: Activities)
    requires Sound(txn) && txn.Enriching?
    ensures Advance(txn, Enriched(outcome), now, DEFAULT_POLICY).None? <==>
            outcome.AutoApply?
            && !(Committed(txn.core.snapshot.amount, outcome.decision) && outcome.decision.decidedBy == Agent)
    ensures var next := Settled(txn, Step(Enriched(outcome), now), activities);
            match outcome
            case AskHuman(proposal) => next.AwaitingHuman? && next.flag == Unflagged && next.proposal == Some(proposal)
            case AutoApply(decision) =>
              Advance(txn, Enriched(outcome), now, DEFAULT_POLICY).Some? ==>
                !next.Discovered? && WriteEnded(next, decision, activities.readBack)
  {
    hide Advance, Handle, WriteEnded, Settled;
    RaisesIff(txn, Enriched(outcome), now, DEFAULT_POLICY);
    if outcome.AskHuman? {
      AskSettles(txn, Enriched(outcome), now, activities);
    } else if Advance(txn, Enriched(outcome), now, DEFAULT_POLICY).Some? {
      WriteSettles(txn, Enriched(outcome), now, activities);
    }
  }

  /** What a reading of the owner's words does: an answer is written if it can rest, a
      question goes on under the same flag and proposal. */
  predicate Heard(before: Transaction, reading: Interpretation, activities: Activities, after: Transaction)
    requires before.AwaitingHuman?
  {
    match reading
    case Answer(decision) =>
      if Committed(before.core.snapshot.amount, decision) then WriteEnded(after, decision, activities.readBack)
      else after == before
    case FollowUp(_) => after.AwaitingHuman? && after.flag == before.flag && after.proposal == before.proposal
  }

  lemma {:induction false} HeardSettles(
      txn: Transaction, reading: Interpretation, now: Instant, activities: Activities)
    requires Sound(txn) && txn.AwaitingHuman?
    ensures var event := ReadAs(reading);
            if Advance(txn, event, now, DEFAULT_POLICY).None? then Heard(txn, reading, activities, txn)
            else var next := Settled(txn, Step(event, now), activities);
                 !next.Discovered? && Heard(txn, reading, activities, next)
                 && (reading.Answer? ==> Committed(txn.core.snapshot.amount, reading.decision))
  {
    hide Advance, Handle, WriteEnded, Settled;
    RaisesIff(txn, ReadAs(reading), now, DEFAULT_POLICY);
    if reading.FollowUp? {
      AskSettles(txn, ReadAs(reading), now, activities);
    } else if Advance(txn, ReadAs(reading), now, DEFAULT_POLICY).Some? {
      WriteSettles(txn, ReadAs(reading), now, activities);
    }
  }

  /** How the write ended shows whatever the thread. */
  lemma SameEnd(decision: Decision, readBack: Option<TargetState>)
    ensures forall a, b :: SameButThread(a, b) && !b.Discovered? && WriteEnded(b, decision, readBack) ==>
              WriteEnded(a, decision, readBack)
  {
  }

  /** What was heard shows whatever the thread. */
  lemma SameHeard(before: Transaction, reading: Interpretation, activities: Activities)
    requires before.AwaitingHuman?
    requires reading.Answer? ==> Committed(before.core.snapshot.amount, reading.decision)
    ensures forall a, b :: SameButThread(a, b) && !b.Discovered? && Heard(before, reading, activities, b) ==>
              Heard(before, reading, activities, a)
  {
  }

  /** Where the transaction stands after a revision came to this outcome. */
  predicate Revised(before: Transaction, outcome: ConvergeOutcome, after: Transaction)
    requires before.Revising?
  {
    match outcome
    case Reapplied(decision) => after.Open? && after.decision == decision
    case Unchanged =>
      if before.prior.Some? then after.Open? && after.decision == before.prior.value
      else after.AwaitingHuman? && after.flag == Unflagged
    case Unconfirmed => after.AwaitingHuman? && after.flag == FlagInconsistent
    case Contested(_, _) => after.AwaitingHuman? && after.flag == FlagDiverged
    case NeedsHuman(_) => after.AwaitingHuman? && after.flag == Unflagged
  }

  lemma {:induction false} RevisionSettles(
      txn: Transaction, outcome: ConvergeOutcome, now: Instant, activities: Activities)
    requires Sound(txn) && txn.Revising?
    ensures Advance(txn, Converged(outcome), now, DEFAULT_POLICY).None? <==>
            outcome.Reapplied? && !Committed(txn.core.snapshot.amount, outcome.decision)
    ensures Advance(txn, Converged(outcome), now, DEFAULT_POLICY).Some? ==>
              var next := Settled(txn, Step(Converged(outcome), now), activities);
              Revised(txn, outcome, next) && !next.Discovered? && next.core == txn.core
  {
    hide Advance, Handle;
    RaisesIff(txn, Converged(outcome), now, DEFAULT_POLICY);
    if Advance(txn, Converged(outcome), now, DEFAULT_POLICY).Some? {
      Outcomes.ConvergedGoes(txn, outcome, now, DEFAULT_POLICY);
    }
  }

  /** YNAB shows another allocation than the decision. */
  predicate Edited(decision: Decision, read: Option<TargetState>) {
    read.Some? && read.value.allocation != decision.allocation
  }

  /** The owner's edit as a decision: what was read, by the owner, by no rule. */
  predicate IsEdit(decision: Decision, read: TargetState) {
    && decision.allocation == read.allocation && decision.memo == read.memo && decision.approved == read.approved
    && decision.decidedBy == Human && decision.ruleId.None?
  }

  /** What was read could not rest: it is unapproved, or a split that misses the amount. */
  predicate Unfit(read: TargetState, amount: Money) {
    !read.approved || (read.allocation.ResolvedSplit? && LineTotal(read.allocation.lines) != amount)
  }

  /** Past the archive window: an edit that cannot rest raises while the transaction is not
      reconciled; otherwise the decision left standing is the edit, if there was one, and
      the transaction is archived exactly when it is reconciled. */
  lemma {:induction false} RestSettles(
      txn: Transaction, read: Option<TargetState>, now: Instant, activities: Activities)
    requires Sound(txn) && txn.Open?
    ensures var event := RestEvent(txn, read, now);
            var raises := Edited(txn.decision, read) && !txn.core.snapshot.reconciled
                          && Unfit(read.value, txn.core.snapshot.amount);
            && (Advance(txn, event, now, DEFAULT_POLICY).None? <==> raises)
            && (!raises ==>
                  var next := Settled(txn, Step(event, now), activities);
                  && next.core == txn.core && (next.Archived? || next.Open?)
                  && (next.Archived? <==> txn.core.snapshot.reconciled)
                  && (next.Archived? ==> next.final.Some?)
                  && var stands := if next.Archived? then next.final.value else next.decision;
                     if Edited(txn.decision, read) then IsEdit(stands, read.value) else stands == txn.decision)
  {
    hide Advance, Handle;
    var event := RestEvent(txn, read, now);
    RaisesIff(txn, event, now, DEFAULT_POLICY);
    if event.ArchiveWindowReached? {
      Outcomes.ArchiveGoes(txn, now, DEFAULT_POLICY);
    } else if Advance(txn, event, now, DEFAULT_POLICY).Some? {
      Outcomes.OverrideGoes(txn, event.decision, now, DEFAULT_POLICY);
    }
  }

  lemma RestIsHeard(txn: Transaction, read: Option<TargetState>, now: Instant)
    requires txn.Open?
    ensures var event := RestEvent(txn, read, now); event.ArchiveWindowReached? || event.OverrideDetected?
  {
  }

  lemma LapsedSettles(txn: Transaction, now: Instant, activities: Activities)
    requires Sound(txn) && txn.Lapsed?
    ensures var next := Settled(txn, Step(ArchiveWindowReached, now), activities);
            && (next.Archived? <==> txn.core.snapshot.reconciled && txn.core.snapshot.categoryId.Some?)
            && (next.Archived? ==> next.final.None?)
  {
    hide Advance, Handle;
    Outcomes.ArchiveGoes(txn, now, DEFAULT_POLICY);
  }

  lemma PatienceOutcome(txn: Transaction, now: Instant, activities: Activities)
    requires txn.AwaitingHuman?
    ensures Advance(txn, PatienceExpired, now, DEFAULT_POLICY).Some?
    ensures Settled(txn, Step(PatienceExpired, now), activities)
         == if txn.flag.Unflagged? then Lapsed(txn.core, txn.proposal) else txn
    ensures !txn.flag.Unflagged? ==> Take(txn, Step(PatienceExpired, now), DEFAULT_POLICY) == Ignoring(txn)
  {
  }

  lemma RestOutcome(txn: Transaction, event: Event, now: Instant, activities: Activities)
    requires Sound(txn)
    requires if txn.Open? then event.ArchiveWindowReached? || event.OverrideDetected?
             else txn.Lapsed? && event.ArchiveWindowReached?
    ensures event.ArchiveWindowReached? ==> Advance(txn, event, now, DEFAULT_POLICY).Some?
    ensures var next := Settled(txn, Step(event, now), activities);
            next.Archived? || (txn.Open? && next.Open?) || (txn.Lapsed? && next.Lapsed?)
  {
  }

  lemma Reopening(txn: Transaction, signal: Signal, now: Instant, activities: Activities)
    requires Sound(txn) && (txn.Open? || txn.Lapsed?)
    ensures var step := Step(InboundReceived(signal), now);
            && Advance(txn, step.event, now, DEFAULT_POLICY).Some? && TakenIn(txn, step, DEFAULT_POLICY) == []
            && Settled(txn, step, activities)
               == (if txn.Open? then Revising(txn.core, signal, WasApplied, Some(txn.decision))
                   else Revising(txn.core, signal, WasLapsed, None))
  {
  }

  /** The verdict on an answer's write is dispatched before the answer's own cancellation,
      so when the write fails to verify, the patience timer just armed for the flagged
      wait is cancelled with it: that wait rests on the deadline its state records. */
  lemma FailedAnswerDropsPatience(
      txn: Transaction, decision: Decision, now: Instant, verdict: VerifyOutcome, verifiedAt: Instant, armed: Timers)
    requires Sound(txn) && txn.AwaitingHuman? && Committed(txn.core.snapshot.amount, decision) && !verdict.Match?
    ensures var t := Take(txn, Step(AnswerReceived(decision), now), DEFAULT_POLICY);
            var failed := Take(t.next, Step(WriteVerified(verdict), verifiedAt), DEFAULT_POLICY);
            && t.effects == [CommitToYnab(decision), CancelTimer(PatienceTimer)]
            && failed.next.AwaitingHuman? && !failed.next.flag.Unflagged?
            && failed.next.patienceDeadline == verifiedAt + DEFAULT_POLICY.patienceWindow
            && PatienceTimer in Arm(armed, failed.effects)
            && PatienceTimer !in ArmBy(Arm(armed, failed.effects), t.effects[1])
  {
    var t := Take(txn, Step(AnswerReceived(decision), now), DEFAULT_POLICY);
    ArmStep(t.next, Step(WriteVerified(verdict), verifiedAt), DEFAULT_POLICY, armed);
  }

  /** What a dispatch needs to know of the step before it carries the effects out. */
  lemma {:induction false} DispatchFacts(txn: Transaction, step: Step, deadlines: Timers)
    requires Sound(txn) && ArchiveAtRest(txn, deadlines) && (InFlight(txn) ==> step.event.WriteVerified?)
    ensures var t := Take(txn, step, DEFAULT_POLICY);
            && Arm(deadlines, t.effects[..0]) == deadlines && Replays(t.effects[..0]) == []
            && if StartsWrite(txn, step) then
                 && |t.effects| > 0 && !step.event.WriteVerified? && !InFlight(txn) && ArchiveTimer !in deadlines
                 && Buffered(txn) + TakenIn(txn, step, DEFAULT_POLICY) == []
               else
                 && !InFlight(t.next) && ArchiveAtRest(t.next, Arm(deadlines, t.effects))
                 && Buffered(t.next) + Replays(t.effects) == Buffered(txn) + TakenIn(txn, step, DEFAULT_POLICY)
  {
    hide Take, TakenIn, Replays, Arm;
    var t := Take(txn, step, DEFAULT_POLICY);
    assert t.effects[..0] == [];
    NothingYet(deadlines);
    if StartsWrite(txn, step) {
      WriteStands(txn, step);
      assert Buffered(txn) == [] && TakenIn(txn, step, DEFAULT_POLICY) == [] by { NotInbound(txn, step); }
    } else {
      PlainRests(txn, step);
      SignalStep(txn, step, DEFAULT_POLICY);
      BufferedOrReplayed(txn, step);
      ArchiveStep(txn, step, deadlines);
    }
  }

  class TransactionWorkflow {
    var txn: Transaction
    var threadId: Option<string>
    var deadlines: Timers
    var inbound: seq<Signal>
    var snapshotReady: Option<YnabSnapshot>
    ghost var arrived: seq<Signal>
    ghost var acted: seq<Signal>
    ghost var threadsOpened: nat

    /** Holds at every point of a dispatch: the thread id mirrors the transaction's, and at
        most one thread was ever opened for it. */
    ghost predicate Mirrored()
      reads this
    {
      && Sound(txn) && threadId == ThreadOf(txn)
      && (threadsOpened == 0 || (threadsOpened == 1 && threadId.Some?))
    }

    /** Holds whenever a dispatch starts or ends: an archive deadline is never left over. */
    ghost predicate Steady()
      reads this
    {
      Mirrored() && ArchiveAtRest(txn, deadlines)
    }

    /** Holds between the steps of the loop: no write is outstanding, and the signals that
        arrived are, in order, those acted on, those buffered, and those queued. */
    ghost predicate Valid()
      reads this
    {
      Steady() && !InFlight(txn) && acted + Buffered(txn) + inbound == arrived
    }

    constructor (ynabId: string, thread: Option<string>)
      ensures Valid() && txn == Born(ynabId, thread) && arrived == []
    {
      txn, threadId, deadlines, inbound, snapshotReady := Born(ynabId, thread), thread, map[], [], None;
      arrived, acted, threadsOpened := [], [], 0;
    }

    method SubmitInbound(signal: Signal)
      requires Valid()
      modifies this`inbound, this`arrived
      ensures Valid() && arrived == old(arrived) + [signal] && inbound == old(inbound) + [signal]
    {
      inbound, arrived := inbound + [signal], arrived + [signal];
    }

    method NotifySnapshot(snapshot: YnabSnapshot)
      requires Valid()
      modifies this`snapshotReady
      ensures Valid() && snapshotReady == Some(snapshot)
    {
      snapshotReady := Some(snapshot);
    }

    /** Open the thread with a first message, and bind the transaction to it. */
    method OpenWith(thread: string)
      requires threadId.None? && Mirrored() && !txn.Discovered?
      modifies this`threadId, this`txn, this`threadsOpened
      ensures Mirrored() && txn == Bound(old(txn), thread)
    {
      threadId, txn, threadsOpened := Some(thread), Bound(txn, thread), threadsOpened + 1;
    }

    /** Carry out one effect other than a commit. */
    method CarryOut(effect: Effect, newThread: string)
      requires Mirrored() && !effect.CommitToYnab?
      requires effect.OpenThread? ==> threadId.None?
      requires effect.OpenThread? || effect.SendThreadMessage? ==> !txn.Discovered?
      modifies this`txn, this`threadId, this`deadlines, this`inbound, this`threadsOpened
      ensures Mirrored() && SameButThread(txn, old(txn))
      ensures deadlines == ArmBy(old(deadlines), effect) && inbound == SignalsOf(effect) + old(inbound)
      ensures !effect.OpenThread? && !effect.SendThreadMessage? ==> txn == old(txn)
    {
      match effect {
        case OpenThread =>
          OpenWith(newThread);
        case SendThreadMessage(_, _, _) =>
          if threadId.None? {
            OpenWith(newThread);
          }
        case SetTimer(timer, deadline) =>
          deadlines := deadlines[timer := deadline];
        case CancelTimer(timer) =>
          deadlines := deadlines - {timer};
        case ReplayBuffered(signals) =>
          inbound := signals + inbound;
        case _ =>
      }
    }

    /** The first `i` effects of a step are carried out; `queue` and `timers` are the
        queue and the deadlines at its start. */
    ghost predicate Midway(
        before: Transaction, step: Step, queue: seq<Signal>, timers: Timers, activities: Activities, i: nat)
      reads this
      requires i <= |Take(before, step, DEFAULT_POLICY).effects|
    {
      var t := Take(before, step, DEFAULT_POLICY);
      && Mirrored()
      && (i == 0 ==> txn == t.next && deadlines == timers && inbound == queue)
      && if StartsWrite(before, step) then
           i > 0 ==> && !InFlight(txn) && SameButThread(txn, Settled(before, step, activities))
                     && ArchiveAtRest(txn, deadlines) && Buffered(txn) + inbound == queue
         else
           && !InFlight(txn) && SameButThread(txn, t.next) && deadlines == Arm(timers, t.effects[..i])
           && inbound == Replays(t.effects[..i]) + queue
    }

    /** One effect that is no commit, carried out between two others. */
    method Perform(
        effect: Effect, activities: Activities, ghost i: nat,
        ghost before: Transaction, ghost step: Step, ghost queue: seq<Signal>, ghost timers: Timers)
      requires i < |Take(before, step, DEFAULT_POLICY).effects|
               && Take(before, step, DEFAULT_POLICY).effects[i] == effect
      requires Midway(before, step, queue, timers, activities, i) && !effect.CommitToYnab?
      modifies this`txn, this`threadId, this`deadlines, this`inbound, this`threadsOpened
      ensures Midway(before, step, queue, timers, activities, i + 1)
    {
      hide Take, Arm, Replays, Settled, StartsWrite, Sound;
      if StartsWrite(before, step) {
        WriteShape(before, step, i);
      } else {
        PlainShape(before, step, i);
        ArmNext(timers, Take(before, step, DEFAULT_POLICY).effects, i);
        ReplayNext(before, step, i);
      }
      CarryOut(effect, activities.newThread);
    }

    /** The commit a step starts with: read back, classify, and dispatch the verdict. */
    method Verify(
        decision: Decision, activities: Activities, ghost i: nat,
        ghost before: Transaction, ghost step: Step, ghost queue: seq<Signal>, ghost timers: Timers)
      requires i < |Take(before, step, DEFAULT_POLICY).effects|
               && Take(before, step, DEFAULT_POLICY).effects[i] == CommitToYnab(decision)
      requires Midway(before, step, queue, timers, activities, i) && StartsWrite(before, step)
      requires ArchiveAtRest(before, timers)
      modifies this`txn, this`threadId, this`deadlines, this`inbound, this`threadsOpened
      ensures Midway(before, step, queue, timers, activities, i + 1)
      decreases 1
    {
      hide Handle, Advance, Arm, Replays, Sound, ClassifyVerify;
      WriteShape(before, step, i);
      WriteStands(before, step);
      var verdict := ClassifyVerify(activities.readBack, TargetOf(decision));
      VerifyNeverRaises(txn, verdict, activities.verifiedAt);
      VerifyStep(txn, Step(WriteVerified(verdict), activities.verifiedAt), DEFAULT_POLICY);
      var failed := Dispatch(WriteVerified(verdict), activities.verifiedAt, activities);
    }

    /** Feed one event to the state machine and carry out its effects in order. A commit is
        verified at once, by a dispatch of its own. */
    method Dispatch(event: Event, now: Instant, activities: Activities) returns (raised: bool)
      requires Steady() && (InFlight(txn) ==> event.WriteVerified?)
      modifies this`txn, this`threadId, this`deadlines, this`inbound, this`threadsOpened
      ensures Steady()
      ensures raised <==> Advance(old(txn), event, now, DEFAULT_POLICY).None?
      ensures raised ==> unchanged(this)
      ensures !raised ==> !InFlight(txn) && SameButThread(txn, Settled(old(txn), Step(event, now), activities))
      ensures !raised ==> Buffered(txn) + inbound
                          == Buffered(old(txn)) + TakenIn(old(txn), Step(event, now), DEFAULT_POLICY) + old(inbound)
      ensures Take(old(txn), Step(event, now), DEFAULT_POLICY) == Ignoring(old(txn)) ==> txn == old(txn)
      decreases if event.WriteVerified? then 0 else 2
    {
      hide Handle, Arm, ArmBy, Replays, ClassifyVerify, Sound, Committed, Midway, Settled;
      ghost var before, queue, timers, step := txn, inbound, deadlines, Step(event, now);
      var outcome := Advance(txn, event, now, DEFAULT_POLICY);
      if outcome.None? {
        return true;
      }
      raised := false;
      var t := outcome.value;
      SoundStep(before, event, now, DEFAULT_POLICY);
      ThreadStep(before, step);
      txn := t.next;
      threadId := if ThreadOf(txn).Some? then ThreadOf(txn) else threadId;
      DispatchFacts(before, step, timers);
      assert Midway(before, step, queue, timers, activities, 0) by {
        Starting(before, step, queue, timers, activities);
      }
      var i := 0;
      while i < |t.effects|
        invariant 0 <= i <= |t.effects|
        invariant Midway(before, step, queue, timers, activities, i)
      {
        if StartsWrite(before, step) {
          WriteStands(before, step);
        } else {
          PlainShape(before, step, i);
        }
        if t.effects[i].CommitToYnab? {
          Verify(t.effects[i].decision, activities, i, before, step, queue, timers);
        } else {
          Perform(t.effects[i], activities, i, before, step, queue, timers);
        }
        i := i + 1;
      }
      Finished(before, step, queue, timers, activities);
    }

    // ---------- the steps of the loop ----------

    /** Feed an event that is no signal. */
    method Feed(event: Event, now: Instant, activities: Activities) returns (raised: bool)
      requires Valid() && !event.InboundReceived?
      modifies this`txn, this`threadId, this`deadlines, this`inbound, this`threadsOpened
      ensures Valid()
      ensures raised <==> Advance(old(txn), event, now, DEFAULT_POLICY).None?
      ensures raised ==> unchanged(this)
      ensures !raised ==> SameButThread(txn, Settled(old(txn), Step(event, now), activities))
      ensures Take(old(txn), Step(event, now), DEFAULT_POLICY) == Ignoring(old(txn)) ==> txn == old(txn)
    {
      hide Handle, Advance, Sound, Settled, ArchiveAtRest, Take;
      NotInbound(txn, Step(event, now));
      raised := Dispatch(event, now, activities);
      QueueKept(acted, Buffered(txn), inbound, Buffered(old(txn)), [], old(inbound));
    }

    /** The next signal is taken off the queue to be acted on: interpreted, or made the
        instruction of a revision. */
    method TakeSignal() returns (signal: Signal)
      requires Valid() && inbound != [] && !txn.Discovered?
      modifies this`inbound, this`acted
      ensures Valid() && old(inbound) == [signal] + inbound && acted == old(acted) + [signal]
    {
      signal, inbound := inbound[0], inbound[1..];
      acted := acted + [signal];
    }

    /** Take the next signal off the queue and feed it, uninterpreted, to a state that
        has none of its own to act on: it comes back through the buffer or a replay. */
    method FeedSignal(now: Instant, activities: Activities)
      requires Valid() && inbound != [] && !txn.Archived? && !txn.Open? && !txn.Lapsed?
      modifies this`txn, this`threadId, this`deadlines, this`inbound, this`threadsOpened
      ensures Valid() && Follows(old(txn), InboundReceived(old(inbound)[0]), now, activities, txn)
    {
      hide Handle, Sound, ArchiveAtRest, Settled;
      var signal := inbound[0];
      inbound := inbound[1..];
      InboundAccepted(txn, signal, now);
      var raised := Dispatch(InboundReceived(signal), now, activities);
      QueueKept(acted, Buffered(txn), inbound, Buffered(old(txn)), [signal], old(inbound)[1..]);
      assert old(inbound) == [signal] + old(inbound)[1..];
    }

    /** Reopen a resting transaction with the next signal as its instruction. */
    method ReopenWithSignal(now: Instant, activities: Activities)
      requires Valid() && inbound != [] && (txn.Open? || txn.Lapsed?)
      modifies this`txn, this`threadId, this`deadlines, this`inbound, this`threadsOpened, this`acted
      ensures Valid() && acted == old(acted) + [old(inbound)[0]]
      ensures txn.Revising? && txn.instruction == old(inbound)[0]
      ensures txn.prior == if old(txn).Open? then Some(old(txn).decision) else None
    {
      hide Handle, Advance, Take, TakenIn, Sound, Settled, ArchiveAtRest;
      var signal := TakeSignal();
      Reopening(txn, signal, now, activities);
      ghost var queue := inbound;
      var raised := Dispatch(InboundReceived(signal), now, activities);
      QueueKept(acted, Buffered(txn), inbound, [], [], queue);
    }

    /** Fetch the snapshot, or else wait until it or a signal is there. */
    method OnDiscovered(
        fetched: Option<YnabSnapshot>, hold: YnabSnapshot -> bool, now: Instant, activities: Activities)
      requires Valid() && txn.Discovered?
      requires fetched.None? ==> snapshotReady.Some? || inbound != []
      modifies this
      ensures Valid() && arrived == old(arrived) && acted == old(acted)
      ensures Follows(old(txn), DiscoveredEvent(fetched, old(snapshotReady), old(inbound), hold), now, activities, txn)
      ensures var found := if fetched.Some? then fetched else old(snapshotReady);
              if found.Some? then
                && (txn.HoldAmazon? <==> hold(found.value)) && (txn.Enriching? <==> !hold(found.value))
                && txn.core.snapshot == found.value
                && (hold(found.value) ==> txn.amazonDeadline == now + 36 * HOUR)
              else txn.Discovered? && txn.pending == old(txn).pending + [old(inbound)[0]]
    {
      hide Handle, Advance, Take, Sound, Settled, ArchiveAtRest;
      if fetched.Some? || snapshotReady.Some? {
        var found := if fetched.Some? then fetched.value else snapshotReady.value;
        DiscoveredSettles(txn, found, hold(found), now, activities);
      } else {
        SignalSettles(txn, inbound[0], now, activities);
      }
      if fetched.Some? {
        var raised := Feed(SnapshotMaterialized(fetched.value, hold(fetched.value)), now, activities);
      } else if snapshotReady.Some? {
        var snapshot := snapshotReady.value;
        snapshotReady := None;
        var raised := Feed(SnapshotMaterialized(snapshot, hold(snapshot)), now, activities);
      } else {
        FeedSignal(now, activities);
      }
    }

    /** Wait until the hold's deadline for the memo or a signal. */
    method OnHold(now: Instant, activities: Activities)
      requires Valid() && txn.HoldAmazon?
      modifies this
      ensures Valid() && arrived == old(arrived) && acted == old(acted)
      ensures Follows(old(txn), HoldEvent(old(snapshotReady), old(inbound)), now, activities, txn)
      ensures txn.Enriching? && txn.core.snapshot == old(snapshotReady).GetOr(old(txn).core.snapshot)
    {
      hide Handle, Advance, Take, Sound, Settled, ArchiveAtRest;
      if snapshotReady.Some? {
        var snapshot := snapshotReady.value;
        snapshotReady := None;
        HoldSettles(txn, HoldResolved(snapshot), now, activities);
        var raised := Feed(HoldResolved(snapshot), now, activities);
      } else if inbound != [] {
        SignalSettles(txn, inbound[0], now, activities);
        FeedSignal(now, activities);
      } else {
        HoldSettles(txn, HoldDeadlineReached, now, activities);
        var raised := Feed(HoldDeadlineReached, now, activities);
      }
    }

    method OnEnriching(outcome: EnrichmentOutcome, now: Instant, activities: Activities)
      requires Valid() && txn.Enriching?
      modifies this
      ensures Valid() && arrived == old(arrived) && acted == old(acted)
      ensures Follows(old(txn), Enriched(outcome), now, activities, txn)
      ensures match outcome
              case AskHuman(proposal) => txn.AwaitingHuman? && txn.flag == Unflagged && txn.proposal == Some(proposal)
              case AutoApply(decision) =>
                if Committed(old(txn).core.snapshot.amount, decision) && decision.decidedBy == Agent
                then WriteEnded(txn, decision, activities.readBack) else txn == old(txn)
    {
      hide Handle, Advance, Take, Sound, Settled, ArchiveAtRest, WriteEnded;
      EnrichedSettles(txn, outcome, now, activities);
      if outcome.AutoApply? {
        SameEnd(outcome.decision, activities.readBack);
      }
      var raised := Feed(Enriched(outcome), now, activities);
    }

    /** Wait for a signal until patience runs out, and interpret it; a flagged wait that
        runs out goes on until the signal `late` ends it. */
    method OnAwaiting(late: Signal, interpret: Signal -> Interpretation, now: Instant, activities: Activities)
      requires Valid() && txn.AwaitingHuman?
      modifies this
      ensures Valid()
      ensures old(inbound) == [] && old(txn).flag.Unflagged? ==>
                txn.Lapsed? && arrived == old(arrived) && acted == old(acted)
      ensures old(inbound) != [] ==>
                arrived == old(arrived) && acted == old(acted) + [old(inbound)[0]]
                && Follows(old(txn), ReadAs(interpret(old(inbound)[0])), now, activities, txn)
                && Heard(old(txn), interpret(old(inbound)[0]), activities, txn)
      ensures old(inbound) == [] && !old(txn).flag.Unflagged? ==>
                arrived == old(arrived) + [late] && acted == old(acted) + [late]
                && Follows(old(txn), ReadAs(interpret(late)), now, activities, txn)
                && Heard(old(txn), interpret(late), activities, txn)
    {
      hide Handle, Advance, Take, Sound, Settled, ArchiveAtRest;
      if inbound == [] {
        PatienceOutcome(txn, now, activities);
        var expired := Feed(PatienceExpired, now, activities);
        if !txn.AwaitingHuman? {
          return;
        }
        assert |acted + Buffered(txn) + inbound| == |acted|;
        DropTimer(PatienceTimer);
        SubmitInbound(late);
      }
      Interpret(interpret, now, activities);
    }

    /** Act on the next signal: commit the answer it gives, or ask what is still open. */
    method Interpret(interpret: Signal -> Interpretation, now: Instant, activities: Activities)
      requires Valid() && txn.AwaitingHuman? && inbound != []
      modifies this`txn, this`threadId, this`deadlines, this`inbound, this`threadsOpened, this`acted
      ensures Valid() && acted == old(acted) + [old(inbound)[0]]
      ensures Follows(old(txn), ReadAs(interpret(old(inbound)[0])), now, activities, txn)
      ensures Heard(old(txn), interpret(old(inbound)[0]), activities, txn)
    {
      hide Handle, Advance, Take, Sound, Settled, ArchiveAtRest, WriteEnded, Committed;
      HeardSettles(txn, interpret(inbound[0]), now, activities);
      if Advance(txn, ReadAs(interpret(inbound[0])), now, DEFAULT_POLICY).Some? {
        SameHeard(txn, interpret(inbound[0]), activities);
      }
      var signal := TakeSignal();
      assert old(inbound)[0] == signal;
      match interpret(signal) {
        case Answer(decision) =>
          var raised := Feed(AnswerReceived(decision), now, activities);
        case FollowUp(question) =>
          var raised := Feed(ClarifyRequested(question), now, activities);
      }
    }

    method DropTimer(timer: TimerKind)
      requires Valid()
      modifies this`deadlines
      ensures Valid() && deadlines == old(deadlines) - {timer}
    {
      deadlines := deadlines - {timer};
    }

    /** Rest until a signal or the archive window; then compare with YNAB, and archive,
        back off, or, when neither changes the state's kind, wait for the signal `late`. */
    method OnOpen(read: Option<TargetState>, late: Signal, now: Instant, activities: Activities)
      requires Valid() && txn.Open? && (inbound != [] || ArchiveTimer in deadlines)
      modifies this
      ensures Valid()
      ensures old(inbound) != [] ==>
                txn.Revising? && txn.instruction == old(inbound)[0] && txn.prior == Some(old(txn).decision)
                && acted == old(acted) + [old(inbound)[0]] && arrived == old(arrived)
      ensures old(inbound) == [] ==>
                var event := RestEvent(old(txn), read, now);
                var next := Settled(old(txn), Step(event, now), activities);
                if Advance(old(txn), event, now, DEFAULT_POLICY).None? || next.Archived?
                then Follows(old(txn), event, now, activities, txn) && acted == old(acted) && arrived == old(arrived)
                else txn.Revising? && txn.instruction == late && next.Open? && txn.prior == Some(next.decision)
                     && acted == old(acted) + [late] && arrived == old(arrived) + [late]
      ensures old(inbound) == [] ==>
                if Edited(old(txn).decision, read) && !old(txn).core.snapshot.reconciled
                   && Unfit(read.value, old(txn).core.snapshot.amount)
                then txn == old(txn)
                else
                  && (txn.Archived? || txn.Revising?) && (txn.Archived? <==> old(txn).core.snapshot.reconciled)
                  && var stands := if txn.Archived? then txn.final else txn.prior;
                     stands.Some?
                     && if Edited(old(txn).decision, read) then IsEdit(stands.value, read.value)
                        else stands.value == old(txn).decision
    {
      hide Handle, Advance, Take, Sound, Settled, ArchiveAtRest, Unfit, RestEvent;
      if inbound != [] {
        ReopenWithSignal(now, activities);
        return;
      }
      var event := RestEvent(txn, read, now);
      RestIsHeard(txn, read, now);
      RestOutcome(txn, event, now, activities);
      RestSettles(txn, read, now, activities);
      var raised := Feed(event, now, activities);
      if raised {
        return;
      }
      if txn.Open? {
        assert |acted + Buffered(txn) + inbound| == |acted|;
        DropTimer(ArchiveTimer);
        SubmitInbound(late);
        ReopenWithSignal(now, activities);
      }
    }

    method OnLapsed(late: Signal, now: Instant, activities: Activities)
      requires Valid() && txn.Lapsed? && (inbound != [] || ArchiveTimer in deadlines)
      modifies this
      ensures Valid()
      ensures old(inbound) != [] ==>
                txn.Revising? && txn.instruction == old(inbound)[0] && txn.prior.None?
                && acted == old(acted) + [old(inbound)[0]] && arrived == old(arrived)
      ensures old(inbound) == [] ==>
                if Settled(old(txn), Step(ArchiveWindowReached, now), activities).Archived?
                then Follows(old(txn), ArchiveWindowReached, now, activities, txn)
                     && acted == old(acted) && arrived == old(arrived)
                else txn.Revising? && txn.instruction == late && txn.prior.None?
                     && acted == old(acted) + [late] && arrived == old(arrived) + [late]
      ensures old(inbound) == [] ==>
                && (txn.Archived? || txn.Revising?) && (txn.Archived? ==> txn.final.None?)
                && (txn.Archived? <==>
                      old(txn).core.snapshot.reconciled && old(txn).core.snapshot.categoryId.Some?)
    {
      hide Handle, Advance, Take, Sound, Settled, ArchiveAtRest;
      if inbound != [] {
        ReopenWithSignal(now, activities);
        return;
      }
      RestOutcome(txn, ArchiveWindowReached, now, activities);
      LapsedSettles(txn, now, activities);
      var raised := Feed(ArchiveWindowReached, now, activities);
      if txn.Lapsed? {
        assert |acted + Buffered(txn) + inbound| == |acted|;
        DropTimer(ArchiveTimer);
        SubmitInbound(late);
        ReopenWithSignal(now, activities);
      }
    }

    method OnRevising(outcome: ConvergeOutcome, now: Instant, activities: Activities)
      requires Valid() && txn.Revising?
      modifies this
      ensures Valid() && arrived == old(arrived) && acted == old(acted)
      ensures Follows(old(txn), Converged(outcome), now, activities, txn)
      ensures if outcome.Reapplied? && !Committed(old(txn).core.snapshot.amount, outcome.decision)
              then txn == old(txn) else Revised(old(txn), outcome, txn)
    {
      hide Handle, Advance, Take, Sound, Settled, ArchiveAtRest;
      RevisionSettles(txn, outcome, now, activities);
      var raised := Feed(Converged(outcome), now, activities);
    }

    lemma Starting(
        before: Transaction, step: Step, queue: seq<Signal>, timers: Timers, activities: Activities)
      requires Mirrored() && txn == Take(before, step, DEFAULT_POLICY).next && deadlines == timers && inbound == queue
      requires Sound(before) && ArchiveAtRest(before, timers) && (InFlight(before) ==> step.event.WriteVerified?)
      ensures Midway(before, step, queue, timers, activities, 0)
    {
      hide Take, Arm, Replays, Settled, Sound, TakenIn;
      DispatchFacts(before, step, timers);
    }

    lemma Finished(
        before: Transaction, step: Step, queue: seq<Signal>, timers: Timers, activities: Activities)
      requires Midway(before, step, queue, timers, activities, |Take(before, step, DEFAULT_POLICY).effects|)
      requires Sound(before) && ArchiveAtRest(before, timers) && (InFlight(before) ==> step.event.WriteVerified?)
      ensures Steady() && !InFlight(txn) && SameButThread(txn, Settled(before, step, activities))
      ensures Buffered(txn) + inbound == Buffered(before) + TakenIn(before, step, DEFAULT_POLICY) + queue
      ensures Take(before, step, DEFAULT_POLICY).effects == [] ==> txn == Take(before, step, DEFAULT_POLICY).next
    {
      hide Take, Arm, Replays, Sound, TakenIn;
      var t := Take(before, step, DEFAULT_POLICY);
      DispatchFacts(before, step, timers);
      assert t.effects[..|t.effects|] == t.effects;
    }
  }
}
