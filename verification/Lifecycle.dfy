/** The transaction lifecycle: ten states, thirteen events, and effects as data. */
module Lifecycle {
  import opened Prelude
  import opened Allocations
  import opened Domain
  import opened Converge

  datatype Policy = Policy(patienceWindow: Instant, amazonHold: Instant, archiveWindow: Instant)

  const DEFAULT_POLICY := Policy(7 * DAY, 36 * HOUR, 30 * DAY)

  datatype Proposal = Proposal(allocation: ProposedAllocation, memo: Option<string>, rationale: string)

  datatype Core = Core(snapshot: YnabSnapshot, threadId: Option<string>)

  datatype AwaitingFlag = Unflagged | FlagInconsistent | FlagDiverged

  datatype Origin = WasApplied | WasLapsed

  datatype Transaction =
    | Discovered(ynabId: string, threadId: Option<string>, pending: seq<Signal>)
    | HoldAmazon(core: Core, amazonDeadline: Instant)
    | Enriching(core: Core, proposal: Option<Proposal>)
    | AutoApplied(core: Core, decision: Decision)
    | AwaitingHuman(core: Core, patienceDeadline: Instant, proposal: Option<Proposal>, flag: AwaitingFlag)
    | Applied(core: Core, decision: Decision)
    | Open(core: Core, decision: Decision)
    | Lapsed(core: Core, proposal: Option<Proposal>)
    | Revising(core: Core, instruction: Signal, origin: Origin, prior: Option<Decision>)
    | Archived(core: Core, final: Option<Decision>)
  {
    /** The validators the states run on construction. */
    predicate Valid() {
      match this
      case AutoApplied(core, decision) => decision.decidedBy.Agent? && Committed(core.snapshot.amount, decision)
      case Applied(core, decision) => Committed(core.snapshot.amount, decision)
      case Open(core, decision) => Committed(core.snapshot.amount, decision)
      case Archived(core, final) =>
        core.snapshot.reconciled && (final.None? ==> core.snapshot.categoryId.Some?)
      case _ => true
    }
  }

  function Born(ynabId: string, threadId: Option<string>): Transaction {
    Discovered(ynabId, threadId, [])
  }

  // ---------- events ----------

  datatype EnrichmentOutcome = AutoApply(decision: Decision) | AskHuman(proposal: Proposal)

  datatype ConvergeOutcome =
    | Reapplied(decision: Decision)
    | Unchanged
    | Unconfirmed
    | Contested(ynabSummary: string, requestedSummary: string)
    | NeedsHuman(reason: string)

  datatype Event =
    | SnapshotMaterialized(snapshot: YnabSnapshot, holdForAmazon: bool)
    | SnapshotUnavailable
    | InboundReceived(signal: Signal)
    | HoldResolved(snapshot: YnabSnapshot)
    | HoldDeadlineReached
    | Enriched(enriched: EnrichmentOutcome)
    | AnswerReceived(decision: Decision)
    | ClarifyRequested(question: string)
    | PatienceExpired
    | WriteVerified(verdict: VerifyOutcome)
    | Converged(converged: ConvergeOutcome)
    | ArchiveWindowReached
    | OverrideDetected(decision: Decision)

  // ---------- effects ----------

  datatype TimerKind = HoldTimer | PatienceTimer | ArchiveTimer

  datatype Purpose =
    | ProposalMail | FyiMail | ConfirmMail | ClarifyMail | HandoffMail | ReviseMail
    | InconsistentMail | DivergedMail | ArchiveMail | OverrideMail

  datatype Detail = NoDetail | Question(text: string) | Sides(ynab: string, asked: string)

  datatype Effect =
    | OpenThread
    | SendThreadMessage(purpose: Purpose, detail: Detail, about: Option<Decision>)
    | CommitToYnab(decision: Decision)
    | SetTimer(timer: TimerKind, deadline: Instant)
    | CancelTimer(timer: TimerKind)
    | Feed(feed: FeedRuleLearning)
    | RecordAutoAction(ynabId: string)
    | ReplayBuffered(signals: seq<Signal>)
    | CloseThread

  datatype Disposition = Advanced | Ignored | Rejected

  datatype Transition = Transition(kind: Disposition, next: Transaction, effects: seq<Effect>)

  function Advancing(next: Transaction, effects: seq<Effect>): Transition {
    Transition(Disposition.Advanced, next, effects)
  }

  function Ignoring(txn: Transaction): Transition {
    Transition(Ignored, txn, [])
  }

  function Rejecting(txn: Transaction): Transition {
    Transition(Rejected, txn, [])
  }

  // ---------- the handlers ----------

  function FromDiscovered(txn: Transaction, event: Event, now: Instant, policy: Policy): Transition
    requires txn.Discovered?
  {
    match event
    case SnapshotMaterialized(snapshot, hold) =>
      var core := Core(snapshot, txn.threadId);
      var replay := if txn.pending != [] then [ReplayBuffered(txn.pending)] else [];
      if hold then
        var deadline := now + policy.amazonHold;
        Advancing(HoldAmazon(core, deadline), [SetTimer(HoldTimer, deadline)] + replay)
      else Advancing(Enriching(core, None), replay)
    case SnapshotUnavailable => Ignoring(txn)
    case InboundReceived(signal) =>
      var threadId := if txn.threadId.None? && signal.ReplySignal? then Some(signal.thread) else txn.threadId;
      Advancing(Discovered(txn.ynabId, threadId, txn.pending + [signal]), [])
    case _ => Rejecting(txn)
  }

  function FromHoldAmazon(txn: Transaction, event: Event): Transition
    requires txn.HoldAmazon?
  {
    match event
    case HoldResolved(snapshot) =>
      Advancing(Enriching(txn.core.(snapshot := snapshot), None), [CancelTimer(HoldTimer)])
    case HoldDeadlineReached => Advancing(Enriching(txn.core, None), [])
    case InboundReceived(signal) =>
      Advancing(Enriching(txn.core, None), [CancelTimer(HoldTimer), ReplayBuffered([signal])])
    case _ => Rejecting(txn)
  }

  function FromEnriching(txn: Transaction, event: Event, now: Instant, policy: Policy): Transition
    requires txn.Enriching?
  {
    match event
    case Enriched(AutoApply(decision)) =>
      Advancing(AutoApplied(txn.core, decision),
                [CommitToYnab(decision), RecordAutoAction(txn.core.snapshot.ynabId)])
    case Enriched(AskHuman(proposal)) =>
      var deadline := now + policy.patienceWindow;
      var send := if txn.core.threadId.None? then OpenThread else SendThreadMessage(ProposalMail, NoDetail, None);
      Advancing(AwaitingHuman(txn.core, deadline, Some(proposal), Unflagged),
                [send, SetTimer(PatienceTimer, deadline)])
    case InboundReceived(signal) => Advancing(txn, [ReplayBuffered([signal])])
    case _ => Rejecting(txn)
  }

  /** A verify failure waits for the owner under a flag. */
  function FlaggedAwaiting(
      core: Core, flag: AwaitingFlag, mail: Purpose, detail: Detail, about: Option<Decision>,
      now: Instant, policy: Policy): Transition
  {
    var deadline := now + policy.patienceWindow;
    Advancing(AwaitingHuman(core, deadline, None, flag),
              [SendThreadMessage(mail, detail, about), SetTimer(PatienceTimer, deadline)])
  }

  function ResolveWriteVerify(
      core: Core, decision: Decision, verdict: VerifyOutcome, mail: Purpose, learns: bool,
      now: Instant, policy: Policy): Transition
  {
    match verdict
    case Match =>
      var learning :=
        if learns then [Feed(FeedRuleLearning(ConfirmKind, core.snapshot.payee, Some(decision), None))] else [];
      Advancing(Open(core, decision),
                learning + [SendThreadMessage(mail, NoDetail, Some(decision)),
                            SetTimer(ArchiveTimer, now + policy.archiveWindow)])
    case CouldNotConfirm =>
      FlaggedAwaiting(core, FlagInconsistent, InconsistentMail, NoDetail, Some(decision), now, policy)
    case Diverged =>
      FlaggedAwaiting(core, FlagDiverged, DivergedMail, NoDetail, Some(decision), now, policy)
  }

  function FromAutoApplied(txn: Transaction, event: Event, now: Instant, policy: Policy): Transition
    requires txn.AutoApplied?
  {
    match event
    case WriteVerified(verdict) => ResolveWriteVerify(txn.core, txn.decision, verdict, FyiMail, false, now, policy)
    case _ => Rejecting(txn)
  }

  function FromApplied(txn: Transaction, event: Event, now: Instant, policy: Policy): Transition
    requires txn.Applied?
  {
    match event
    case WriteVerified(verdict) => ResolveWriteVerify(txn.core, txn.decision, verdict, ConfirmMail, true, now, policy)
    case _ => Rejecting(txn)
  }

  function FromAwaitingHuman(txn: Transaction, event: Event, now: Instant, policy: Policy): Transition
    requires txn.AwaitingHuman?
  {
    match event
    case AnswerReceived(decision) =>
      Advancing(Applied(txn.core, decision), [CommitToYnab(decision), CancelTimer(PatienceTimer)])
    case ClarifyRequested(question) =>
      var deadline := now + policy.patienceWindow;
      Advancing(AwaitingHuman(txn.core, deadline, txn.proposal, txn.flag),
                [SendThreadMessage(ClarifyMail, Question(question), None), SetTimer(PatienceTimer, deadline)])
    case PatienceExpired =>
      if !txn.flag.Unflagged? then Ignoring(txn)
      else Advancing(Lapsed(txn.core, txn.proposal),
                     [SendThreadMessage(HandoffMail, NoDetail, None),
                      SetTimer(ArchiveTimer, now + policy.archiveWindow)])
    case InboundReceived(signal) => Advancing(txn, [ReplayBuffered([signal])])
    case _ => Rejecting(txn)
  }

  function FromOpen(txn: Transaction, event: Event): Transition
    requires txn.Open?
  {
    match event
    case InboundReceived(signal) =>
      Advancing(Revising(txn.core, signal, WasApplied, Some(txn.decision)), [CancelTimer(ArchiveTimer)])
    case ArchiveWindowReached =>
      if !txn.core.snapshot.reconciled then Ignoring(txn)
      else Advancing(Archived(txn.core, Some(txn.decision)), [CloseThread])
    case OverrideDetected(decision) =>
      var demote := Feed(FeedRuleLearning(CorrectKind, txn.core.snapshot.payee, Some(decision), Some(txn.decision)));
      var notice := SendThreadMessage(OverrideMail, NoDetail, Some(decision));
      if !txn.core.snapshot.reconciled then Advancing(Open(txn.core, decision), [demote, notice])
      else Advancing(Archived(txn.core, Some(decision)), [demote, notice, CloseThread])
    case _ => Rejecting(txn)
  }

  function FromLapsed(txn: Transaction, event: Event): Transition
    requires txn.Lapsed?
  {
    match event
    case InboundReceived(signal) =>
      Advancing(Revising(txn.core, signal, WasLapsed, None), [CancelTimer(ArchiveTimer)])
    case ArchiveWindowReached =>
      if !txn.core.snapshot.reconciled then Ignoring(txn)
      else if txn.core.snapshot.categoryId.None? then
        Advancing(txn, [SendThreadMessage(ArchiveMail, NoDetail, None)])
      else Advancing(Archived(txn.core, None), [CloseThread])
    case _ => Rejecting(txn)
  }

  /** A change of what was applied corrects the rule behind it; anything else confirms. */
  function Reapply(txn: Transaction, decision: Decision, now: Instant, policy: Policy): Transition
    requires txn.Revising?
  {
    var corrects := txn.prior.Some? && txn.prior.value.allocation != decision.allocation;
    var payee := txn.core.snapshot.payee;
    var learning := if corrects then FeedRuleLearning(CorrectKind, payee, Some(decision), txn.prior)
                    else FeedRuleLearning(ConfirmKind, payee, Some(decision), None);
    Advancing(Open(txn.core, decision),
              [Feed(learning), SendThreadMessage(ReviseMail, NoDetail, Some(decision)),
               SetTimer(ArchiveTimer, now + policy.archiveWindow)])
  }

  function ResolveNoChange(txn: Transaction, now: Instant, policy: Policy): Transition
    requires txn.Revising?
  {
    if txn.origin == WasApplied && txn.prior.Some? then
      Advancing(Open(txn.core, txn.prior.value), [SetTimer(ArchiveTimer, now + policy.archiveWindow)])
    else
      var deadline := now + policy.patienceWindow;
      Advancing(AwaitingHuman(txn.core, deadline, None, Unflagged), [SetTimer(PatienceTimer, deadline)])
  }

  function FromRevising(txn: Transaction, event: Event, now: Instant, policy: Policy): Transition
    requires txn.Revising?
  {
    match event
    case Converged(Reapplied(decision)) => Reapply(txn, decision, now, policy)
    case Converged(Unchanged) => ResolveNoChange(txn, now, policy)
    case Converged(Unconfirmed) =>
      FlaggedAwaiting(txn.core, FlagInconsistent, InconsistentMail, NoDetail, None, now, policy)
    case Converged(Contested(ynab, asked)) =>
      FlaggedAwaiting(txn.core, FlagDiverged, DivergedMail, Sides(ynab, asked), None, now, policy)
    case Converged(NeedsHuman(reason)) =>
      var deadline := now + policy.patienceWindow;
      Advancing(AwaitingHuman(txn.core, deadline, None, Unflagged),
                [SendThreadMessage(ClarifyMail, Question(reason), None), SetTimer(PatienceTimer, deadline)])
    case InboundReceived(signal) => Advancing(txn.(instruction := signal), [ReplayBuffered([signal])])
    case _ => Rejecting(txn)
  }

  /** The transition the handlers build, before the new state's validator has run. */
  function Handle(txn: Transaction, event: Event, now: Instant, policy: Policy): Transition {
    match txn
    case Discovered(_, _, _) => FromDiscovered(txn, event, now, policy)
    case HoldAmazon(_, _) => FromHoldAmazon(txn, event)
    case Enriching(_, _) => FromEnriching(txn, event, now, policy)
    case AutoApplied(_, _) => FromAutoApplied(txn, event, now, policy)
    case AwaitingHuman(_, _, _, _) => FromAwaitingHuman(txn, event, now, policy)
    case Applied(_, _) => FromApplied(txn, event, now, policy)
    case Open(_, _) => FromOpen(txn, event)
    case Lapsed(_, _) => FromLapsed(txn, event)
    case Revising(_, _, _, _) => FromRevising(txn, event, now, policy)
    case Archived(_, _) => Rejecting(txn)
  }

  /** One step: None is the exception a state's validator raises on construction. */
  function Advance(txn: Transaction, event: Event, now: Instant, policy: Policy): Option<Transition> {
    var transition := Handle(txn, event, now, policy);
    if transition.next.Valid() then Some(transition) else None
  }

  // ---------- when a step raises ----------

  /** What every reachable state satisfies: its validator, and a revision remembers a
      decision exactly when it reopened an applied transaction. */
  predicate Sound(txn: Transaction) {
    && txn.Valid()
    && (txn.Revising? ==>
          && (txn.origin == WasApplied <==> txn.prior.Some?)
          && (txn.prior.Some? ==> Committed(txn.core.snapshot.amount, txn.prior.value)))
  }

  /** The decision an accepted event would make the transaction's own. */
  function Adopts(txn: Transaction, event: Event): Option<Decision> {
    if txn.Enriching? && event.Enriched? && event.enriched.AutoApply? then Some(event.enriched.decision)
    else if txn.AwaitingHuman? && event.AnswerReceived? then Some(event.decision)
    else if txn.Revising? && event.Converged? && event.converged.Reapplied? then Some(event.converged.decision)
    else if txn.Open? && event.OverrideDetected? && !txn.core.snapshot.reconciled then Some(event.decision)
    else None
  }

  /** A step raises exactly when the decision it would adopt is unapproved, does not sum
      to the transaction, or claims to be automatic without being the agent's. */
  lemma RaisesIff(txn: Transaction, event: Event, now: Instant, policy: Policy)
    requires Sound(txn)
    ensures Advance(txn, event, now, policy).None? <==>
              var adopted := Adopts(txn, event);
              adopted.Some?
              && (!Committed(txn.core.snapshot.amount, adopted.value)
                  || (txn.Enriching? && adopted.value.decidedBy.Human?))
  {
  }

  /** Soundness is kept by every step, whatever the event. */
  lemma SoundStep(txn: Transaction, event: Event, now: Instant, policy: Policy)
    requires Sound(txn) && Advance(txn, event, now, policy).Some?
    ensures Sound(Advance(txn, event, now, policy).value.next)
  {
  }

  /** An ignored or rejected event changes nothing and asks for nothing. */
  lemma OnlyAdvancedActs(txn: Transaction, event: Event, now: Instant, policy: Policy)
    ensures var t := Handle(txn, event, now, policy);
            !t.kind.Advanced? ==> t.next == txn && t.effects == []
  {
  }
}
