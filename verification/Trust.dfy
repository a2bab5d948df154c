/** When a rule is trusted, exactly: while nothing is blessed or revoked, trust is the count
    of credited confirmations; and while nothing is corrected, it is the count of
    confirmations of one action for one payee, in any order with any others. */
module Trust {
  import opened Prelude
  import opened Domain
  import opened Learning
  import opened Registry
  import opened Autonomy
  import opened Credits

  // ---------- per rule ----------

  /** The run only learns and offers. */
  ghost predicate OnlyLearns(steps: seq<Step>) {
    forall i :: 0 <= i < |steps| ==> steps[i].Learn? || steps[i].Offered?
  }

  /** A rule's trust is what its hits earn. */
  predicate Earned(r: Rule) {
    r.source.Learned? && r.trust == TrustForHits(r.hits, K_DEFAULT)
  }

  lemma {:induction false} EarnedStep(state: RegistryState, step: Step, r: Rule)
    requires step.Learn? || step.Offered?
    requires (forall x :: x in state.rules ==> Earned(x)) && r in AfterStep(state, step).rules
    ensures Earned(r)
  {
    hide FindRule, FindPreference, LastEntries, ActionOf;
    var after := AfterStep(state, step).rules;
    var i :| 0 <= i < |after| && after[i] == r;
    if i < |state.rules| {
      assert state.rules[i] in state.rules;
    }
  }

  lemma {:induction false} TrustIsEarned(steps: seq<Step>)
    requires OnlyLearns(steps)
    ensures forall r :: r in After(EMPTY, steps).rules ==> Earned(r)
  {
    hide AfterStep, Earned;
    if steps != [] {
      var front, step := steps[..|steps| - 1], steps[|steps| - 1];
      TrustIsEarned(front);
      forall r | r in AfterStep(After(EMPTY, front), step).rules ensures Earned(r) {
        EarnedStep(After(EMPTY, front), step, r);
      }
    }
  }

  /** On a run that only learns and offers, a rule is eligible to be blessed exactly when at
      least K confirmations were credited to it since it was made or last corrected. */
  lemma {:induction false} EligibleIff(steps: seq<Step>, r: Rule)
    requires OnlyLearns(steps) && FreshRun(EMPTY, steps) && r in After(EMPTY, steps).rules
    ensures Eligible(r) <==> CreditsOf(steps, r.id) >= K_DEFAULT
  {
    hide CreditsOf, After;
    TrustIsEarned(steps);
    HitsAreExact(steps, r);
  }

  // ---------- per payee ----------

  function PayeePattern(payee: string): RuleMatch {
    RuleMatch(payee, None, None, None)
  }

  /** The step confirms this action for this payee. */
  predicate ConfirmsFor(step: Step, condition: RuleMatch, action: RuleAction) {
    step.Learn? &&
    var event := EventOf(step.feed);
    event.Some? && event.value.ConfirmCategory? && event.value.condition == condition && event.value.action == action
  }

  /** How often the run confirms this action for this payee. */
  function ConfirmationsFor(steps: seq<Step>, condition: RuleMatch, action: RuleAction): nat {
    if steps == [] then 0
    else ConfirmationsFor(steps[..|steps| - 1], condition, action)
         + if ConfirmsFor(steps[|steps| - 1], condition, action) then 1 else 0
  }

  /** An offer mark, a confirmation counted for no other payee's rule, or nothing learnable:
      in particular every confirmation of a decision no rule drove. */
  ghost predicate Plain(state: RegistryState, step: Step) {
    || step.Offered?
    || (step.Learn? && EventOf(step.feed).None?)
    || (step.Learn? && EventOf(step.feed).value.ConfirmCategory?
        && var target := ConfirmTarget(state.rules, EventOf(step.feed).value);
           target.Some? ==> target.value.condition == EventOf(step.feed).value.condition)
  }

  ghost predicate PlainRun(steps: seq<Step>) {
    forall i :: 0 <= i < |steps| ==> Plain(After(EMPTY, steps[..i]), steps[i])
  }

  /** Every step is an offer mark or confirms a decision that names no rule, as an answer
      of the owner's does. */
  predicate Undriven(steps: seq<Step>) {
    forall i :: 0 <= i < |steps| ==>
      || steps[i].Offered?
      || (steps[i].Learn? && steps[i].feed.event.ConfirmKind?
          && (steps[i].feed.decision.Some? ==> steps[i].feed.decision.value.ruleId.None?))
  }

  lemma UndrivenIsPlain(steps: seq<Step>)
    requires Undriven(steps)
    ensures PlainRun(steps)
  {
    hide After;
  }

  /** The table holds each preference once. */
  ghost predicate OneEach(rules: seq<Rule>) {
    forall i, j :: 0 <= i < j < |rules| ==>
      rules[i].condition != rules[j].condition || rules[i].action != rules[j].action
  }

  /** The hits the table holds for a preference. */
  function HitsFor(rules: seq<Rule>, condition: RuleMatch, action: RuleAction): nat {
    var r := FindPreference(rules, condition, action);
    if r.Some? then r.value.hits else 0
  }

  lemma {:induction false} FoundAt(rules: seq<Rule>, i: nat)
    requires OneEach(rules) && i < |rules|
    ensures FindPreference(rules, rules[i].condition, rules[i].action) == Some(rules[i])
  {
    if i > 0 {
      FoundAt(rules[1..], i - 1);
    }
  }

  lemma {:induction false} NotFound(rules: seq<Rule>, condition: RuleMatch, action: RuleAction)
    requires FindPreference(rules, condition, action).None?
    ensures forall i :: 0 <= i < |rules| ==> rules[i].condition != condition || rules[i].action != action
  {
    if rules != [] {
      NotFound(rules[1..], condition, action);
    }
  }

  /** Where a plain step touches the table: the confirmed preference, or nowhere. */
  ghost predicate TouchesOnly(state: RegistryState, step: Step, after: seq<Rule>) {
    && |state.rules| <= |after| <= |state.rules| + 1
    && (forall i :: 0 <= i < |state.rules| ==>
          && after[i].id == state.rules[i].id
          && after[i].condition == state.rules[i].condition && after[i].action == state.rules[i].action
          && after[i].hits == state.rules[i].hits
                              + if ConfirmsFor(step, state.rules[i].condition, state.rules[i].action) then 1 else 0)
    && (|after| == |state.rules| + 1 ==>
          && ConfirmsFor(step, after[|state.rules|].condition, after[|state.rules|].action)
          && after[|state.rules|].hits == 1
          && FindPreference(state.rules, after[|state.rules|].condition, after[|state.rules|].action).None?)
    && (|after| == |state.rules| ==>
          forall c, a :: ConfirmsFor(step, c, a) ==> FindPreference(state.rules, c, a).Some?)
  }

  lemma {:induction false} PlainTouches(state: RegistryState, step: Step)
    requires Plain(state, step) && OneEach(state.rules) && UniqueIds(state.rules)
    ensures TouchesOnly(state, step, AfterStep(state, step).rules)
  {
    hide FindRule, FindPreference, LastEntries, OneEach, UniqueIds;
    if step.Learn? && EventOf(step.feed).Some? {
      ConfirmTouches(state, step);
    }
  }

  lemma {:induction false} ConfirmTouches(state: RegistryState, step: Step)
    requires Plain(state, step) && OneEach(state.rules) && UniqueIds(state.rules)
    requires step.Learn? && EventOf(step.feed).Some?
    ensures TouchesOnly(state, step, AfterStep(state, step).rules)
  {
    hide FindRule, FindPreference, LastEntries, ActionOf;
    var event := EventOf(step.feed).value;
    var target := ConfirmTarget(state.rules, event);
    TargetInTable(state.rules, event);
    if target.Some? {
      var k :| 0 <= k < |state.rules| && state.rules[k] == target.value;
      FoundAt(state.rules, k);
      forall i | 0 <= i < |state.rules| && i != k
        ensures state.rules[i].id != state.rules[k].id
                && (state.rules[i].condition != event.condition || state.rules[i].action != event.action)
      {
      }
    } else {
      NotFound(state.rules, event.condition, event.action);
      forall i | 0 <= i < |state.rules| ensures !ConfirmsFor(step, state.rules[i].condition, state.rules[i].action) {
      }
    }
  }

  /** The table after a plain run: unique, and its hits are the confirmations. */
  ghost predicate Tallied(rules: seq<Rule>, steps: seq<Step>) {
    && OneEach(rules)
    && forall c, a :: HitsFor(rules, c, a) == ConfirmationsFor(steps, c, a)
  }

  lemma {:induction false} TalliedStep(state: RegistryState, step: Step, steps: seq<Step>)
    requires steps != [] && step == steps[|steps| - 1] && Tallied(state.rules, steps[..|steps| - 1])
    requires TouchesOnly(state, step, AfterStep(state, step).rules)
    ensures Tallied(AfterStep(state, step).rules, steps)
  {
    hide AfterStep, FindPreference, ConfirmsFor, HitsFor;
    var after := AfterStep(state, step).rules;
    StillOneEach(state, step);
    forall c, a ensures HitsFor(after, c, a) == ConfirmationsFor(steps, c, a) {
      HitsStepFor(state, step, c, a);
    }
  }

  lemma {:induction false} StillOneEach(state: RegistryState, step: Step)
    requires OneEach(state.rules) && TouchesOnly(state, step, AfterStep(state, step).rules)
    ensures OneEach(AfterStep(state, step).rules)
  {
    hide AfterStep, FindPreference, ConfirmsFor;
    var after := AfterStep(state, step).rules;
    if |after| > |state.rules| {
      NotFound(state.rules, after[|state.rules|].condition, after[|state.rules|].action);
      forall i | 0 <= i < |state.rules|
        ensures after[i].condition != after[|state.rules|].condition || after[i].action != after[|state.rules|].action
      {
      }
    }
  }

  lemma {:induction false} HitsStepFor(state: RegistryState, step: Step, c: RuleMatch, a: RuleAction)
    requires OneEach(state.rules) && TouchesOnly(state, step, AfterStep(state, step).rules)
    ensures HitsFor(AfterStep(state, step).rules, c, a)
         == HitsFor(state.rules, c, a) + if ConfirmsFor(step, c, a) then 1 else 0
  {
    hide AfterStep, FindPreference, ConfirmsFor;
    var rules, after := state.rules, AfterStep(state, step).rules;
    StillOneEach(state, step);
    var was, now := FindPreference(rules, c, a), FindPreference(after, c, a);
    if was.Some? {
      var k :| 0 <= k < |rules| && rules[k] == was.value;
      FoundAt(after, k);
    } else {
      NotFound(rules, c, a);
      if now.Some? {
        var k :| 0 <= k < |after| && after[k] == now.value;
      } else {
        NotFound(after, c, a);
        OnlyOneConfirmed(step);
      }
    }
  }

  /** A step confirms one preference at most. */
  lemma OnlyOneConfirmed(step: Step)
    ensures forall c, a, d, b :: ConfirmsFor(step, c, a) && ConfirmsFor(step, d, b) ==> c == d && a == b
  {
  }

  lemma {:induction false} RunTallied(steps: seq<Step>)
    requires PlainRun(steps) && FreshRun(EMPTY, steps)
    ensures Tallied(After(EMPTY, steps).rules, steps)
  {
    if steps != [] {
      hide AfterStep, Plain, Tallied, TouchesOnly;
      var front, step := steps[..|steps| - 1], steps[|steps| - 1];
      FreshPrefix(steps);
      PlainPrefix(steps);
      RunTallied(front);
      UniqueRun(front);
      assert OneEach(After(EMPTY, front).rules) by { TalliedIsOneEach(front); }
      PlainTouches(After(EMPTY, front), step);
      TalliedStep(After(EMPTY, front), step, steps);
    }
  }

  lemma TalliedIsOneEach(steps: seq<Step>)
    requires Tallied(After(EMPTY, steps).rules, steps)
    ensures OneEach(After(EMPTY, steps).rules)
  {
  }

  lemma {:induction false} PlainPrefix(steps: seq<Step>)
    requires PlainRun(steps) && steps != []
    ensures PlainRun(steps[..|steps| - 1]) && OnlyLearns(steps)
    ensures Plain(After(EMPTY, steps[..|steps| - 1]), steps[|steps| - 1])
  {
    hide After;
    var front := steps[..|steps| - 1];
    forall i | 0 <= i < |front| ensures Plain(After(EMPTY, front[..i]), front[i]) {
      assert front[..i] == steps[..i] && front[i] == steps[i];
    }
    forall i | 0 <= i < |steps| ensures steps[i].Learn? || steps[i].Offered? {
      assert Plain(After(EMPTY, steps[..i]), steps[i]);
    }
  }

  ghost predicate TrustedFor(rules: seq<Rule>, payee: string, action: RuleAction) {
    exists r :: r in rules && r.condition == PayeePattern(payee) && r.action == action && Eligible(r)
  }

  /** However the confirmations of a payee oscillate between categories, and whatever other
      payees are confirmed in between, a payee reaches a trusted rule for a category
      exactly when that category was confirmed for it at least K times. */
  lemma {:induction false} OscillatingPayeeIff(steps: seq<Step>, payee: string, action: RuleAction)
    requires PlainRun(steps) && FreshRun(EMPTY, steps)
    ensures TrustedFor(After(EMPTY, steps).rules, payee, action)
            <==> ConfirmationsFor(steps, PayeePattern(payee), action) >= K_DEFAULT
  {
    hide After, ConfirmationsFor, FindPreference;
    var rules, condition := After(EMPTY, steps).rules, PayeePattern(payee);
    if steps != [] {
      PlainPrefix(steps);
    }
    TrustIsEarned(steps);
    RunTallied(steps);
    assert HitsFor(rules, condition, action) == ConfirmationsFor(steps, condition, action);
    if r :| r in rules && r.condition == condition && r.action == action {
      var k :| 0 <= k < |rules| && rules[k] == r;
      FoundAt(rules, k);
    }
  }

  /** So it is, in particular, for whatever the owner answers about undriven proposals. */
  lemma {:induction false} AnsweredPayeeIff(steps: seq<Step>, payee: string, action: RuleAction)
    requires Undriven(steps) && FreshRun(EMPTY, steps)
    ensures TrustedFor(After(EMPTY, steps).rules, payee, action)
            <==> ConfirmationsFor(steps, PayeePattern(payee), action) >= K_DEFAULT
  {
    hide *;
    UndrivenIsPlain(steps);
    OscillatingPayeeIff(steps, payee, action);
  }
}
