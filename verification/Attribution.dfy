/** From the owner's edit back to the rule: which rule a correction reaches, over whole runs
    of the lifecycle and of the registry. */
module Attribution {
  import opened Prelude
  import opened Allocations
  import opened Domain
  import opened Converge
  import opened Floor
  import opened Learning
  import opened Registry
  import opened Gate
  import opened Autonomy
  import opened Lifecycle
  import Runs = LifecycleRuns

  // ---------- the rule a standing decision names ----------

  /** The step makes a new decision the transaction's own. */
  predicate Adopting(txn: Transaction, step: Runs.Step, policy: Lifecycle.Policy) {
    Runs.Take(txn, step, policy).kind.Advanced? && Adopts(txn, step.event).Some?
  }

  /** The rule named by the decision adopted last, the automatic one at first. */
  ghost function Driver(start: Transaction, steps: seq<Runs.Step>, policy: Lifecycle.Policy): Option<string>
    requires start.AutoApplied?
  {
    if steps == [] then start.decision.ruleId
    else
      var front, step := steps[..|steps| - 1], steps[|steps| - 1];
      var txn := Runs.After(start, front, policy);
      if Adopting(txn, step, policy) then Adopts(txn, step.event).value.ruleId else Driver(start, front, policy)
  }

  lemma StandingStep(txn: Transaction, step: Runs.Step, policy: Lifecycle.Policy)
    ensures var next := Runs.Take(txn, step, policy).next;
            !next.Archived? && Runs.Standing(next).Some? ==>
              && !txn.Archived?
              && Runs.Standing(next) ==
                 if Adopting(txn, step, policy) then Adopts(txn, step.event) else Runs.Standing(txn)
  {
  }

  /** Over every run from an automatic application, the decision a transaction stands on
      names the rule of the decision adopted last. */
  lemma {:induction false} StandingNamesDriver(start: Transaction, steps: seq<Runs.Step>, policy: Lifecycle.Policy)
    requires start.AutoApplied?
    ensures var txn := Runs.After(start, steps, policy);
            !txn.Archived? && Runs.Standing(txn).Some? ==>
              Runs.Standing(txn).value.ruleId == Driver(start, steps, policy)
  {
    hide Runs.Take, Adopting, Adopts, Runs.Standing;
    if steps != [] {
      var front, step := steps[..|steps| - 1], steps[|steps| - 1];
      StandingNamesDriver(start, front, policy);
      StandingStep(Runs.After(start, front, policy), step, policy);
    } else {
      assert Runs.Standing(start) == Some(start.decision) by { StandsOnItself(start); }
    }
  }

  lemma StandsOnItself(txn: Transaction)
    requires txn.AutoApplied?
    ensures Runs.Standing(txn) == Some(txn.decision)
  {
  }

  /** Only an automatic decision names a rule: answers, revisions and read-back edits are
      built without one. */
  predicate NamesNoRule(event: Event) {
    match event
    case AnswerReceived(decision) => decision.ruleId.None?
    case Converged(Reapplied(decision)) => decision.ruleId.None?
    case OverrideDetected(decision) => decision.ruleId.None?
    case _ => true
  }

  ghost predicate OnlyRulesNameRules(steps: seq<Runs.Step>) {
    forall i :: 0 <= i < |steps| ==> NamesNoRule(steps[i].event)
  }

  /** No step of the run adopted a decision. */
  ghost predicate Untouched(start: Transaction, steps: seq<Runs.Step>, policy: Lifecycle.Policy) {
    forall i :: 0 <= i < |steps| ==> !Adopting(Runs.After(start, steps[..i], policy), steps[i], policy)
  }

  lemma PastEnriching(txn: Transaction, step: Runs.Step, policy: Lifecycle.Policy)
    requires !txn.Discovered? && !txn.HoldAmazon? && !txn.Enriching?
    ensures var next := Runs.Take(txn, step, policy).next; !next.Discovered? && !next.HoldAmazon? && !next.Enriching?
    ensures Adopting(txn, step, policy) && NamesNoRule(step.event) ==> Adopts(txn, step.event).value.ruleId.None?
  {
  }

  lemma {:induction false} NeverEnrichedAgain(start: Transaction, steps: seq<Runs.Step>, policy: Lifecycle.Policy)
    requires start.AutoApplied?
    ensures var txn := Runs.After(start, steps, policy); !txn.Discovered? && !txn.HoldAmazon? && !txn.Enriching?
  {
    hide Runs.Take;
    if steps != [] {
      NeverEnrichedAgain(start, steps[..|steps| - 1], policy);
      PastEnriching(Runs.After(start, steps[..|steps| - 1], policy), steps[|steps| - 1], policy);
    }
  }

  lemma {:induction false} UntouchedFront(start: Transaction, steps: seq<Runs.Step>, policy: Lifecycle.Policy)
    requires steps != []
    ensures var front := steps[..|steps| - 1];
            Untouched(start, steps, policy) <==>
            Untouched(start, front, policy)
            && !Adopting(Runs.After(start, front, policy), steps[|steps| - 1], policy)
  {
    hide Adopting, Runs.After;
    var front := steps[..|steps| - 1];
    forall i | 0 <= i < |front| ensures front[..i] == steps[..i] && front[i] == steps[i] {
    }
    if Untouched(start, steps, policy) {
      forall i | 0 <= i < |front| ensures !Adopting(Runs.After(start, front[..i], policy), front[i], policy) {
        assert front[..i] == steps[..i];
      }
    } else {
      var i :| 0 <= i < |steps| && Adopting(Runs.After(start, steps[..i], policy), steps[i], policy);
      if i < |front| {
        assert front[..i] == steps[..i] && front[i] == steps[i];
      }
    }
  }

  /** The standing decision still names the rule exactly when nothing was adopted since the
      rule applied itself: no receipt folded in, no reply carried out, no answer, no edit. */
  lemma {:induction false} StillDrivenIff(
      start: Transaction, steps: seq<Runs.Step>, policy: Lifecycle.Policy, id: string)
    requires start.AutoApplied? && start.decision.ruleId == Some(id) && OnlyRulesNameRules(steps)
    ensures Driver(start, steps, policy) == if Untouched(start, steps, policy) then Some(id) else None
  {
    hide Adopting, Adopts, NamesNoRule, Untouched;
    if steps != [] {
      var front, step := steps[..|steps| - 1], steps[|steps| - 1];
      StillDrivenIff(start, front, policy, id);
      UntouchedFront(start, steps, policy);
      NeverEnrichedAgain(start, front, policy);
      PastEnriching(Runs.After(start, front, policy), step, policy);
    } else {
      assert Untouched(start, [], policy) by { NothingYet(start, policy); }
    }
  }

  lemma NothingYet(start: Transaction, policy: Lifecycle.Policy)
    ensures Untouched(start, [], policy)
  {
  }

  // ---------- what a correction does to the gate ----------

  /** The correction carries a whole category, and a prior decision that names the rule. */
  predicate Reaches(feed: FeedRuleLearning, id: string) {
    && feed.decision.Some? && feed.decision.value.allocation.ResolvedCategory?
    && feed.prior.Some? && feed.prior.value.ruleId == Some(id)
  }

  /** A correction demotes the gating rule exactly when it reaches it: then the gate asks
      until a matching rule is blessed. Otherwise the gate decides as it did, whatever the
      counters: a split teaches nothing, and a correction that names no rule or another
      one leaves this one blessed. */
  lemma {:induction false} CorrectionDemotesIff(
      before: seq<Step>, feed: FeedRuleLearning, now: Instant, nextId: string, later: seq<Step>,
      snapshot: YnabSnapshot, was: Counters, counters: Counters, policy: FloorPolicy, id: string)
    requires EvaluateGate(snapshot, After(EMPTY, before).rules, was, policy) == Auto(id)
    requires feed.event.CorrectKind?
    ensures var state := After(EMPTY, before);
            var taught := AfterStep(state, Learn(feed, now, nextId));
            if Reaches(feed, id) then
              NoBlessFor(taught, later, snapshot) ==>
                EvaluateGate(snapshot, After(taught, later).rules, counters, policy).Ask?
            else
              EvaluateGate(snapshot, taught.rules, counters, policy)
              == EvaluateGate(snapshot, state.rules, counters, policy)
  {
    hide EvaluateGate, FindRule, AfterStep, After, SoleBlessed, NoBlessFor;
    var state := After(EMPTY, before);
    var step := Learn(feed, now, nextId);
    AutoIff(snapshot, state.rules, was, policy, id);
    var i: nat :| SoleBlessed(state.rules, snapshot, id, i);
    if !Reaches(feed, id) {
      MissedRuleStays(state, feed, now, nextId, snapshot, id, i);
      SameGate(snapshot, state.rules, AfterStep(state, step).rules, counters, policy, id, i);
    } else if NoBlessFor(AfterStep(state, step), later, snapshot) {
      CorrectsTheRule(state, feed, now, nextId, snapshot, id, i);
      WithdrawalForcesAsk(before, step, later, snapshot, was, counters, policy, id);
    }
  }

  lemma CorrectsTheRule(
      state: RegistryState, feed: FeedRuleLearning, now: Instant, nextId: string,
      snapshot: YnabSnapshot, id: string, i: nat)
    requires SoleBlessed(state.rules, snapshot, id, i)
    requires feed.event.CorrectKind? && Reaches(feed, id)
    ensures Withdraws(state, Learn(feed, now, nextId), id)
  {
    assert state.rules[i] in state.rules;
  }

  lemma {:induction false} MissedRuleStays(
      state: RegistryState, feed: FeedRuleLearning, now: Instant, nextId: string,
      snapshot: YnabSnapshot, id: string, i: nat)
    requires SoleBlessed(state.rules, snapshot, id, i)
    requires feed.event.CorrectKind? && !Reaches(feed, id)
    ensures SoleBlessed(AfterStep(state, Learn(feed, now, nextId)).rules, snapshot, id, i)
  {
    hide RuleMatches, FindRule, LastEntries;
  }

  lemma {:induction false} SameGate(
      snapshot: YnabSnapshot, before: seq<Rule>, after: seq<Rule>, counters: Counters, policy: FloorPolicy,
      id: string, i: nat)
    requires SoleBlessed(before, snapshot, id, i) && SoleBlessed(after, snapshot, id, i)
    ensures EvaluateGate(snapshot, before, counters, policy) == EvaluateGate(snapshot, after, counters, policy)
  {
    hide BlessedMatch;
    UniqueBlessed(before, snapshot, i);
    UniqueBlessed(after, snapshot, i);
  }

  // ---------- over runs of the lifecycle ----------

  /** An edit the owner makes in YNAB to what a rule once applied takes the rule's autonomy
      exactly when it is to a whole category and nothing was adopted in between. Then the
      gate asks until a matching rule is blessed; otherwise the rule keeps its autonomy and
      the gate decides as before. */
  lemma {:induction false} OverrideReachesTheRuleIff(
      start: Transaction, steps: seq<Runs.Step>, edit: Decision, at: Instant, lifecycle: Lifecycle.Policy,
      before: seq<Step>, now: Instant, nextId: string, later: seq<Step>,
      snapshot: YnabSnapshot, was: Counters, counters: Counters, policy: FloorPolicy, id: string)
    requires start.AutoApplied? && start.decision.ruleId == Some(id) && OnlyRulesNameRules(steps)
    requires Runs.After(start, steps, lifecycle).Open?
    requires Advance(Runs.After(start, steps, lifecycle), OverrideDetected(edit), at, lifecycle).Some?
    requires EvaluateGate(snapshot, After(EMPTY, before).rules, was, policy) == Auto(id)
    ensures var effects := Advance(Runs.After(start, steps, lifecycle), OverrideDetected(edit), at,
                                   lifecycle).value.effects;
            && |effects| > 0 && effects[0].Feed?
            && var state := After(EMPTY, before);
               var taught := AfterStep(state, Learn(effects[0].feed, now, nextId));
               if edit.allocation.ResolvedCategory? && Untouched(start, steps, lifecycle) then
                 NoBlessFor(taught, later, snapshot) ==>
                   EvaluateGate(snapshot, After(taught, later).rules, counters, policy).Ask?
               else
                 EvaluateGate(snapshot, taught.rules, counters, policy)
                 == EvaluateGate(snapshot, state.rules, counters, policy)
  {
    hide EvaluateGate, AfterStep, After, Runs.After, NoBlessFor, Untouched, Driver;
    var txn := Runs.After(start, steps, lifecycle);
    var feed := FeedRuleLearning(CorrectKind, txn.core.snapshot.payee, Some(edit), Some(txn.decision));
    StandingNamesDriver(start, steps, lifecycle);
    StillDrivenIff(start, steps, lifecycle, id);
    CorrectionDemotesIff(before, feed, now, nextId, later, snapshot, was, counters, policy, id);
  }

  /** So does a reply that re-categorizes it. */
  lemma {:induction false} RevisionReachesTheRuleIff(
      start: Transaction, steps: seq<Runs.Step>, revised: Decision, at: Instant, lifecycle: Lifecycle.Policy,
      before: seq<Step>, now: Instant, nextId: string, later: seq<Step>,
      snapshot: YnabSnapshot, was: Counters, counters: Counters, policy: FloorPolicy, id: string)
    requires start.AutoApplied? && start.decision.ruleId == Some(id) && OnlyRulesNameRules(steps)
    requires var txn := Runs.After(start, steps, lifecycle);
             && txn.Revising? && txn.prior.Some? && txn.prior.value.allocation != revised.allocation
             && Advance(txn, Converged(Reapplied(revised)), at, lifecycle).Some?
    requires EvaluateGate(snapshot, After(EMPTY, before).rules, was, policy) == Auto(id)
    ensures var effects := Advance(Runs.After(start, steps, lifecycle), Converged(Reapplied(revised)), at,
                                   lifecycle).value.effects;
            && |effects| > 0 && effects[0].Feed?
            && var state := After(EMPTY, before);
               var taught := AfterStep(state, Learn(effects[0].feed, now, nextId));
               if revised.allocation.ResolvedCategory? && Untouched(start, steps, lifecycle) then
                 NoBlessFor(taught, later, snapshot) ==>
                   EvaluateGate(snapshot, After(taught, later).rules, counters, policy).Ask?
               else
                 EvaluateGate(snapshot, taught.rules, counters, policy)
                 == EvaluateGate(snapshot, state.rules, counters, policy)
  {
    hide EvaluateGate, AfterStep, After, Runs.After, NoBlessFor, Untouched, Driver;
    var txn := Runs.After(start, steps, lifecycle);
    var feed := FeedRuleLearning(CorrectKind, txn.core.snapshot.payee, Some(revised), txn.prior);
    StandingNamesDriver(start, steps, lifecycle);
    StillDrivenIff(start, steps, lifecycle, id);
    CorrectionDemotesIff(before, feed, now, nextId, later, snapshot, was, counters, policy, id);
  }

  // ---------- how a rule is missed ----------

  /** A rule's application verifies, and a receipt is folded into its memo. */
  function FoldReceipt(receipt: string, folded: Decision, at: Instant): seq<Runs.Step> {
    [Runs.Step(WriteVerified(Match), at), Runs.Step(InboundReceived(ReceiptSignal(receipt)), at),
     Runs.Step(Converged(Reapplied(folded)), at)]
  }

  lemma {:induction false} FoldedIsOpen(
      start: Transaction, receipt: string, folded: Decision, at: Instant, policy: Lifecycle.Policy)
    requires start.AutoApplied? && Sound(start) && folded.allocation.ResolvedCategory? && folded.approved
    ensures Runs.After(start, FoldReceipt(receipt, folded, at), policy) == Open(start.core, folded)
    ensures !Untouched(start, FoldReceipt(receipt, folded, at), policy)
  {
    hide Untouched;
    var steps := FoldReceipt(receipt, folded, at);
    assert steps[..1][..0] == [] && steps[..2][..1] == steps[..1];
    assert steps[..3] == steps && steps[..3][..2] == steps[..2];
    assert Runs.After(start, steps[..1], policy) == Open(start.core, start.decision);
    assert Runs.After(start, steps[..2], policy)
        == Revising(start.core, ReceiptSignal(receipt), WasApplied, Some(start.decision));
    assert Adopting(Runs.After(start, steps[..2], policy), steps[2], policy);
    UntouchedFront(start, steps, policy);
  }

  /** The documented demotion fails: a receipt folded into what the rule applied makes the
      agent's own memo edit the standing decision, which names no rule. Whatever category
      the owner then moves the transaction to, the rule keeps its autonomy. */
  lemma {:induction false} ReceiptHidesTheRule(
      start: Transaction, receipt: string, folded: Decision, edit: Decision, at: Instant, lifecycle: Lifecycle.Policy,
      before: seq<Step>, now: Instant, nextId: string,
      snapshot: YnabSnapshot, was: Counters, policy: FloorPolicy, id: string)
    requires start.AutoApplied? && Sound(start) && start.decision.ruleId == Some(id)
    requires folded.allocation.ResolvedCategory? && folded.approved && folded.ruleId.None?
    requires edit.allocation.ResolvedCategory? && edit.allocation != folded.allocation && edit.approved
    requires EvaluateGate(snapshot, After(EMPTY, before).rules, was, policy) == Auto(id)
    ensures var txn := Runs.After(start, FoldReceipt(receipt, folded, at), lifecycle);
            var outcome := Advance(txn, OverrideDetected(edit), at, lifecycle);
            && txn.Open? && outcome.Some? && |outcome.value.effects| > 0 && outcome.value.effects[0].Feed?
            && var taught := AfterStep(After(EMPTY, before), Learn(outcome.value.effects[0].feed, now, nextId));
               EvaluateGate(snapshot, taught.rules, was, policy) == Auto(id)
  {
    hide EvaluateGate, AfterStep, After, Runs.After, NoBlessFor, Untouched;
    var steps := FoldReceipt(receipt, folded, at);
    FoldedIsOpen(start, receipt, folded, at, lifecycle);
    OverrideReachesTheRuleIff(start, steps, edit, at, lifecycle, before, now, nextId, [], snapshot, was, was,
                              policy, id);
  }
}
