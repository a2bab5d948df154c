/** Autonomy is granted, never taken; it is withdrawn for good; and trust is counted
    from real confirmations. All over whole runs of the registry. */
module Autonomy {
  import opened Prelude
  import opened Domain
  import opened Floor
  import opened Learning
  import opened Registry
  import opened Gate
  import Text

  // ---------- granted, never taken ----------

  ghost predicate BlessedBefore(rules: seq<Rule>, r: Rule) {
    exists x :: x in rules && x.id == r.id && x.source.HumanExplicit?
  }

  lemma {:induction false} ReplaceOrigin(rules: seq<Rule>, updated: Rule, r: Rule)
    requires r in Replace(rules, updated)
    ensures r == updated || (r in rules && r.id != updated.id)
  {
    var i :| 0 <= i < |rules| && Replace(rules, updated)[i] == r;
    assert rules[i] in rules;
  }

  /** A rule blessed after a step was blessed by it, or was blessed before and the step
      did not withdraw it. */
  lemma {:induction false} BlessedAfterStep(state: RegistryState, step: Step, r: Rule)
    requires r in AfterStep(state, step).rules && r.source.HumanExplicit?
    ensures Grants(state, step, r.id) || (BlessedBefore(state.rules, r) && !Withdraws(state, step, r.id))
  {
    hide FindRule, FindPreference, RevokeIds;
    var after := AfterStep(state, step).rules;
    match step
    case Learn(feed, now, nextId) =>
      var event := EventOf(feed);
      if event.Some? && event.value.ConfirmCategory? {
        var target := ConfirmTarget(state.rules, event.value);
        if target.Some? {
          var trust := if target.value.source.HumanExplicit? then Trusted
                       else TrustForHits(target.value.hits + 1, K_DEFAULT);
          ReplaceOrigin(state.rules, target.value.(hits := target.value.hits + 1, trust := trust,
                                                   lastConfirmedAt := Some(now)), r);
        }
      } else if event.Some? {
        var target := FindById(state.rules, event.value.priorRuleId);
        if target.Some? {
          ReplaceOrigin(state.rules,
            target.value.(action := event.value.action, trust := Suggested, hits := 0,
                          lastCorrectedAt := Some(now), source := Learned, offeredAt := None), r);
        }
      }
    case Command(condition, action, now, nextId) =>
      var target := FindPreference(state.rules, condition, action);
      if target.Some? {
        ReplaceOrigin(state.rules,
          target.value.(trust := Trusted, source := HumanExplicit, lastConfirmedAt := Some(now)), r);
      }
    case Accept(id, now) =>
      var target := FindRule(state.rules, id);
      if target.Some? && Eligible(target.value) {
        ReplaceOrigin(state.rules, target.value.(source := HumanExplicit, lastConfirmedAt := Some(now)), r);
      }
    case Revoke(payee, now) =>
      var i :| 0 <= i < |after| && after[i] == r;
      assert state.rules[i] in state.rules;
    case Offered(id, now) =>
      var i :| 0 <= i < |after| && after[i] == r;
      assert state.rules[i] in state.rules;
  }

  /** Step `i` blessed the rule and no later step took it back. */
  ghost predicate StandingGrant(start: RegistryState, steps: seq<Step>, id: string, i: int) {
    && 0 <= i < |steps|
    && Grants(After(start, steps[..i]), steps[i], id)
    && forall j :: i < j < |steps| ==> !Withdraws(After(start, steps[..j]), steps[j], id)
  }

  /** On every run, each blessed rule has a bless step for it later than the last
      correction or revocation of it. */
  lemma {:induction false} GrantedNeverTaken(steps: seq<Step>, r: Rule)
    requires r in After(EMPTY, steps).rules && r.source.HumanExplicit?
    ensures exists i :: StandingGrant(EMPTY, steps, r.id, i)
  {
    hide AfterStep, Grants, Withdraws;
    var n := |steps| - 1;
    var state := After(EMPTY, steps[..n]);
    BlessedAfterStep(state, steps[n], r);
    if Grants(state, steps[n], r.id) {
      assert StandingGrant(EMPTY, steps, r.id, n);
    } else {
      var x :| x in state.rules && x.id == r.id && x.source.HumanExplicit?;
      GrantedNeverTaken(steps[..n], x);
      var i :| StandingGrant(EMPTY, steps[..n], x.id, i);
      assert steps[..n][..i] == steps[..i];
      forall j | i < j < |steps| ensures !Withdraws(After(EMPTY, steps[..j]), steps[j], r.id) {
        if j < n {
          assert steps[..n][..j] == steps[..j] && steps[..n][j] == steps[j];
        }
      }
      assert StandingGrant(EMPTY, steps, r.id, i);
    }
  }

  lemma {:induction false} NoneBlessed(rules: seq<Rule>, snapshot: YnabSnapshot)
    requires NoneApplies(rules, snapshot)
    ensures BlessedMatches(rules, snapshot) == []
  {
    if rules != [] {
      NoneBlessed(rules[1..], snapshot);
    }
  }

  // ---------- blessed by descent ----------

  /** `r` is blessed, and so was a rule of the same id, condition and action in `rules`. */
  ghost predicate Inherited(rules: seq<Rule>, r: Rule) {
    exists x :: x in rules && x.source.HumanExplicit? && x.id == r.id && x.condition == r.condition
                && x.action == r.action
  }

  lemma {:induction false} InheritedStep(state: RegistryState, step: Step, r: Rule)
    requires !Grants(state, step, r.id) && r in AfterStep(state, step).rules && r.source.HumanExplicit?
    ensures Inherited(state.rules, r)
  {
    hide FindRule, FindPreference, RevokeIds;
    var after := AfterStep(state, step).rules;
    match step
    case Learn(feed, now, nextId) =>
      var event := EventOf(feed);
      if event.Some? && event.value.ConfirmCategory? {
        var target := ConfirmTarget(state.rules, event.value);
        if target.Some? {
          var trust := if target.value.source.HumanExplicit? then Trusted
                       else TrustForHits(target.value.hits + 1, K_DEFAULT);
          TargetInTable(state.rules, event.value);
          ReplaceOrigin(state.rules, target.value.(hits := target.value.hits + 1, trust := trust,
                                                   lastConfirmedAt := Some(now)), r);
        }
      } else if event.Some? {
        var target := FindById(state.rules, event.value.priorRuleId);
        if target.Some? {
          ReplaceOrigin(state.rules,
            target.value.(action := event.value.action, trust := Suggested, hits := 0,
                          lastCorrectedAt := Some(now), source := Learned, offeredAt := None), r);
        }
      }
    case Command(condition, action, now, nextId) =>
      var target := FindPreference(state.rules, condition, action);
      if target.Some? {
        ReplaceOrigin(state.rules,
          target.value.(trust := Trusted, source := HumanExplicit, lastConfirmedAt := Some(now)), r);
      }
    case Accept(id, now) =>
      var target := FindRule(state.rules, id);
      if target.Some? && Eligible(target.value) {
        ReplaceOrigin(state.rules, target.value.(source := HumanExplicit, lastConfirmedAt := Some(now)), r);
      }
    case Revoke(payee, now) =>
      var i :| 0 <= i < |after| && after[i] == r;
      assert state.rules[i] in state.rules;
    case Offered(id, now) =>
      var i :| 0 <= i < |after| && after[i] == r;
      assert state.rules[i] in state.rules;
  }

  lemma TargetInTable(rules: seq<Rule>, event: LearningEvent)
    requires event.ConfirmCategory?
    ensures var target := ConfirmTarget(rules, event);
            target.Some? ==> target.value in rules && target.value.action == event.action
  {
  }

  /** Steps without a bless only ever shrink the set of blessed rules. */
  lemma {:induction false} BlessedOnlyShrinks(start: RegistryState, steps: seq<Step>, r: Rule)
    requires NoBless(steps) && r in After(start, steps).rules && r.source.HumanExplicit?
    ensures Inherited(start.rules, r)
  {
    if steps != [] {
      var n := |steps| - 1;
      InheritedStep(After(start, steps[..n]), steps[n], r);
      var x :| x in After(start, steps[..n]).rules && x.source.HumanExplicit? && x.id == r.id
               && x.condition == r.condition && x.action == r.action;
      BlessedOnlyShrinks(start, steps[..n], x);
    }
  }

  // ---------- asking until a matching rule is blessed ----------

  /** The step blesses a rule that matches the transaction. */
  ghost predicate BlessesFor(state: RegistryState, step: Step, snapshot: YnabSnapshot) {
    exists r :: r in AfterStep(state, step).rules && r.source.HumanExplicit?
                && Grants(state, step, r.id) && RuleMatches(r, snapshot)
  }

  /** The run blesses no rule that matches the transaction, whatever else it blesses. */
  ghost predicate NoBlessFor(start: RegistryState, steps: seq<Step>, snapshot: YnabSnapshot) {
    forall i :: 0 <= i < |steps| ==> !BlessesFor(After(start, steps[..i]), steps[i], snapshot)
  }

  /** No blessed rule of the table matches the transaction. */
  ghost predicate NoneApplies(rules: seq<Rule>, snapshot: YnabSnapshot) {
    forall r :: r in rules && r.source.HumanExplicit? ==> !RuleMatches(r, snapshot)
  }

  lemma {:induction false} NoneAppliesStep(state: RegistryState, step: Step, snapshot: YnabSnapshot)
    requires NoneApplies(state.rules, snapshot) && !BlessesFor(state, step, snapshot)
    ensures NoneApplies(AfterStep(state, step).rules, snapshot)
  {
    hide AfterStep, Grants, Text.Contains, Text.Lower;
    forall r | r in AfterStep(state, step).rules && r.source.HumanExplicit? ensures !RuleMatches(r, snapshot) {
      if !Grants(state, step, r.id) {
        InheritedStep(state, step, r);
        var x :| x in state.rules && x.source.HumanExplicit? && x.id == r.id && x.condition == r.condition
                 && x.action == r.action;
        assert !RuleMatches(x, snapshot);
      }
    }
  }

  lemma {:induction false} NoneAppliesRun(start: RegistryState, steps: seq<Step>, snapshot: YnabSnapshot)
    requires NoneApplies(start.rules, snapshot) && NoBlessFor(start, steps, snapshot)
    ensures NoneApplies(After(start, steps).rules, snapshot)
  {
    if steps != [] {
      hide AfterStep, BlessesFor, NoneApplies;
      var n := |steps| - 1;
      forall i | 0 <= i < n ensures !BlessesFor(After(start, steps[..n][..i]), steps[..n][i], snapshot) {
        assert steps[..n][..i] == steps[..i] && steps[..n][i] == steps[i];
      }
      NoneAppliesRun(start, steps[..n], snapshot);
      NoneAppliesStep(After(start, steps[..n]), steps[n], snapshot);
    }
  }

  /** Until a matching rule is blessed the gate asks about a transaction, whatever was
      confirmed, however often, and whatever else was blessed. */
  lemma {:induction false} NoBlessAlwaysAsks(
      steps: seq<Step>, snapshot: YnabSnapshot, counters: Counters, policy: FloorPolicy)
    requires NoBlessFor(EMPTY, steps, snapshot)
    ensures EvaluateGate(snapshot, After(EMPTY, steps).rules, counters, policy).Ask?
  {
    hide NoBlessFor, After;
    NoneAppliesRun(EMPTY, steps, snapshot);
    NoneBlessed(After(EMPTY, steps).rules, snapshot);
  }

  // ---------- withdrawn for good ----------

  /** A correction, or a revocation, of the one rule that gates a transaction forces ASK
      for that transaction until a rule that matches it is blessed. */
  lemma {:induction false} WithdrawalForcesAsk(
      before: seq<Step>, withdrawal: Step, later: seq<Step>, snapshot: YnabSnapshot,
      was: Counters, counters: Counters, policy: FloorPolicy, id: string)
    requires EvaluateGate(snapshot, After(EMPTY, before).rules, was, policy) == Auto(id)
    requires Withdraws(After(EMPTY, before), withdrawal, id)
    requires NoBlessFor(AfterStep(After(EMPTY, before), withdrawal), later, snapshot)
    ensures EvaluateGate(snapshot, After(AfterStep(After(EMPTY, before), withdrawal), later).rules,
                         counters, policy).Ask?
  {
    hide NoBlessFor, Withdraws, RuleMatches, AfterStep;
    var state := After(EMPTY, before);
    var middle := AfterStep(state, withdrawal);
    AutoIff(snapshot, state.rules, was, policy, id);
    RulesConsistent(before);
    forall r | r in middle.rules && r.source.HumanExplicit? ensures !RuleMatches(r, snapshot) {
      OtherRuleDescends(state, withdrawal, id, r);
      OthersDoNotMatch(state.rules, snapshot, r, id);
    }
    NoneAppliesRun(middle, later, snapshot);
    NoneBlessed(After(middle, later).rules, snapshot);
  }

  lemma {:induction false} OtherRuleDescends(state: RegistryState, withdrawal: Step, id: string, r: Rule)
    requires Withdraws(state, withdrawal, id)
    requires r in AfterStep(state, withdrawal).rules && r.source.HumanExplicit?
    ensures Inherited(state.rules, r) && r.id != id
  {
    hide AfterStep, RevokeIds, FindRule;
    BlessedAfterStep(state, withdrawal, r);
    InheritedStep(state, withdrawal, r);
  }

  /** Beside the gating rule, no blessed rule of another id matches. */
  lemma {:induction false} OthersDoNotMatch(rules: seq<Rule>, snapshot: YnabSnapshot, r: Rule, id: string)
    requires exists i :: SoleBlessed(rules, snapshot, id, i)
    requires Inherited(rules, r) && r.id != id
    requires forall x :: x in rules ==> Consistent(x)
    ensures !RuleMatches(r, snapshot)
  {
    hide Text.Contains, Text.Lower;
    var y :| y in rules && y.source.HumanExplicit? && y.id == r.id && y.condition == r.condition
             && y.action == r.action;
    var k :| 0 <= k < |rules| && rules[k] == y;
    assert RuleMatches(y, snapshot) == RuleMatches(r, snapshot);
  }

  /** After "stop auto-handling p", no transaction whose case-folded payee is part of p's is
      applied without asking until a rule that matches it is blessed. */
  lemma {:induction false} RevocationHolds(
      state: RegistryState, payee: string, now: Instant, later: seq<Step>,
      snapshot: YnabSnapshot, counters: Counters, policy: FloorPolicy)
    requires NoBlessFor(RevokePayee(state, payee, now), later, snapshot)
    requires Text.Contains(Text.Lower(payee), Text.Lower(snapshot.payee))
    ensures EvaluateGate(snapshot, After(RevokePayee(state, payee, now), later).rules, counters, policy).Ask?
  {
    hide NoBlessFor;
    var revoked := RevokePayee(state, payee, now);
    forall r | r in revoked.rules && r.source.HumanExplicit? ensures !RuleMatches(r, snapshot) {
      RevokedNoLongerMatch(state, payee, now, r);
      if RuleMatches(r, snapshot) {
        Text.ContainsTransitive(Text.Lower(payee), Text.Lower(snapshot.payee), Text.Lower(r.condition.payeePattern));
      }
    }
    NoneAppliesRun(revoked, later, snapshot);
    NoneBlessed(After(revoked, later).rules, snapshot);
  }

  lemma {:induction false} RevokedNoLongerMatch(state: RegistryState, payee: string, now: Instant, x: Rule)
    requires x in RevokePayee(state, payee, now).rules && x.source.HumanExplicit?
    ensures !PayeeMatches(x, payee)
  {
    var after := RevokePayee(state, payee, now).rules;
    var i :| 0 <= i < |after| && after[i] == x;
    assert state.rules[i] in state.rules;
    if RevokeIds(state.rules, payee) == [] {
      assert !(x.id in RevokeIds(state.rules, payee));
    }
    assert !Revocable(state.rules[i], payee);
  }

  // ---------- trust is counted honestly ----------

  /** A blessed rule is trusted; a learned trusted rule has at least K hits; a suggested
      rule is learned and has none. */
  predicate Consistent(r: Rule) {
    && (r.source.HumanExplicit? ==> r.trust.Trusted?)
    && (r.source.Learned? && r.trust.Trusted? ==> r.hits >= K_DEFAULT)
    && (r.trust.Suggested? ==> r.source.Learned? && r.hits == 0)
  }

  lemma {:induction false} ConsistentStep(state: RegistryState, step: Step, r: Rule)
    requires forall x :: x in state.rules ==> Consistent(x)
    requires r in AfterStep(state, step).rules
    ensures Consistent(r)
  {
    hide FindRule, FindPreference, RevokeIds, LastEntries, ActionOf;
    var after := AfterStep(state, step).rules;
    if step.Learn? {
      ConsistentLearn(state, step, r);
    } else {
      var i :| 0 <= i < |after| && after[i] == r;
      if i < |state.rules| {
        assert state.rules[i] in state.rules;
      }
    }
  }

  lemma {:induction false} ConsistentLearn(state: RegistryState, step: Step, r: Rule)
    requires forall x :: x in state.rules ==> Consistent(x)
    requires step.Learn? && r in AfterStep(state, step).rules
    ensures Consistent(r)
  {
    hide FindRule, FindPreference, LastEntries, ActionOf;
    var after := AfterStep(state, step).rules;
    var i :| 0 <= i < |after| && after[i] == r;
    if i < |state.rules| {
      assert state.rules[i] in state.rules;
    }
  }

  lemma {:induction false} RulesConsistent(steps: seq<Step>)
    ensures forall r :: r in After(EMPTY, steps).rules ==> Consistent(r)
  {
    if steps != [] {
      var state := After(EMPTY, steps[..|steps| - 1]);
      RulesConsistent(steps[..|steps| - 1]);
      forall r | r in AfterStep(state, steps[|steps| - 1]).rules ensures Consistent(r) {
        ConsistentStep(state, steps[|steps| - 1], r);
      }
    }
  }

  /** The step is a human confirmation of exactly this action. */
  predicate ConfirmsAction(step: Step, action: RuleAction) {
    step.Learn? &&
    var event := EventOf(step.feed);
    event.Some? && event.value.ConfirmCategory? && event.value.action == action
  }

  function Confirmations(steps: seq<Step>, action: RuleAction): nat {
    if steps == [] then 0
    else Confirmations(steps[..|steps| - 1], action) + if ConfirmsAction(steps[|steps| - 1], action) then 1 else 0
  }

  lemma {:induction false} HitsStep(state: RegistryState, step: Step, r: Rule)
    requires r in AfterStep(state, step).rules
    ensures r.hits == 0
            || (exists x :: x in state.rules && x.action == r.action && x.hits == r.hits)
            || (ConfirmsAction(step, r.action)
                && (r.hits == 1 || exists x :: x in state.rules && x.action == r.action && x.hits + 1 == r.hits))
  {
    hide FindRule, FindPreference, RevokeIds;
    var after := AfterStep(state, step).rules;
    var i :| 0 <= i < |after| && after[i] == r;
    if i < |state.rules| {
      assert state.rules[i] in state.rules;
    }
    if step.Learn? && EventOf(step.feed).Some? && EventOf(step.feed).value.ConfirmCategory? {
      TargetInTable(state.rules, EventOf(step.feed).value);
    }
  }

  /** A rule's hits never exceed the confirmations of exactly its current action in the
      run so far. */
  lemma {:induction false} HitsAreConfirmations(steps: seq<Step>, r: Rule)
    requires r in After(EMPTY, steps).rules
    ensures r.hits <= Confirmations(steps, r.action)
  {
    var n := |steps| - 1;
    var state := After(EMPTY, steps[..n]);
    HitsStep(state, steps[n], r);
    if x :| x in state.rules && x.action == r.action && x.hits == r.hits {
      HitsAreConfirmations(steps[..n], x);
    } else if x :| x in state.rules && x.action == r.action && x.hits + 1 == r.hits {
      HitsAreConfirmations(steps[..n], x);
    }
  }

  /** Eligibility is earned: a learned rule the owner is offered to bless was confirmed,
      with exactly its current action, at least K times. */
  lemma {:induction false} EligibilityIsEarned(steps: seq<Step>, r: Rule)
    requires r in After(EMPTY, steps).rules && Eligible(r)
    ensures Confirmations(steps, r.action) >= K_DEFAULT
  {
    RulesConsistent(steps);
    HitsAreConfirmations(steps, r);
  }

  // ---------- ids and places ----------

  /** The step mints no rule of an id already in use. */
  ghost predicate Fresh(rules: seq<Rule>, step: Step) {
    step.Learn? || step.Command? ==> forall r :: r in rules ==> r.id != step.nextId
  }

  ghost predicate FreshRun(start: RegistryState, steps: seq<Step>) {
    forall i :: 0 <= i < |steps| ==> Fresh(After(start, steps[..i]).rules, steps[i])
  }

  ghost predicate InTable(rules: seq<Rule>, id: string) {
    exists r :: r in rules && r.id == id
  }

  /** A rule keeps its place and its id. */
  lemma {:induction false} PlaceKept(state: RegistryState, step: Step, i: nat)
    requires i < |state.rules|
    ensures i < |AfterStep(state, step).rules| && AfterStep(state, step).rules[i].id == state.rules[i].id
  {
    hide FindRule, FindPreference, RevokeIds;
    assert state.rules[i] in state.rules;
  }
}
