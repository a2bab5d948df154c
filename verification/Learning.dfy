/** Rules and the three moves that change them: confirm, correct, bless. */
module Learning {
  import opened Prelude
  import opened Allocations
  import opened Domain

  datatype TrustState = Suggested | Confirmed | Trusted

  datatype RuleSource = HumanExplicit | Learned

  datatype AmountRange = AmountRange(low: Option<Money>, high: Option<Money>) {
    predicate Contains(amount: Money) {
      && (low.Some? ==> low.value <= amount)
      && (high.Some? ==> amount <= high.value)
    }
  }

  datatype RuleMatch = RuleMatch(
    payeePattern: string, account: Option<string>, amountRange: Option<AmountRange>, itemKeyword: Option<string>)

  datatype RuleAction = RuleAction(allocation: ProposedAllocation, memoTemplate: Option<string>)

  datatype Rule = Rule(
    id: string,
    condition: RuleMatch,
    action: RuleAction,
    trust: TrustState,
    hits: nat,
    lastConfirmedAt: Option<Instant>,
    lastCorrectedAt: Option<Instant>,
    source: RuleSource,
    offeredAt: Option<Instant>)

  datatype LearningEvent =
    | ConfirmCategory(condition: RuleMatch, action: RuleAction, ruleId: Option<string>)
    | CorrectDecision(condition: RuleMatch, action: RuleAction, priorRuleId: Option<string>)
    | ExplicitCommand(condition: RuleMatch, action: RuleAction)

  datatype ChangeKind = Created | Strengthened | Rewritten | Blessed | Revoked

  datatype RuleChange = RuleChange(kind: ChangeKind, ruleId: string, trust: TrustState)

  datatype LearningOutcome = LearningOutcome(rules: seq<Rule>, change: RuleChange)

  /** Consistent confirmations a learned rule needs to be trusted. */
  const K_DEFAULT: nat := 3

  function TrustForHits(hits: nat, k: nat): TrustState {
    if hits == 0 then Suggested
    else if hits >= k then Trusted
    else Confirmed
  }

  /** The first rule with the id. */
  function FindRule(rules: seq<Rule>, id: string): (r: Option<Rule>)
    ensures r.Some? ==> r.value in rules && r.value.id == id
    ensures r.None? ==> forall x :: x in rules ==> x.id != id
  {
    if rules == [] then None
    else if rules[0].id == id then Some(rules[0])
    else
      assert rules == [rules[0]] + rules[1..];
      FindRule(rules[1..], id)
  }

  function FindById(rules: seq<Rule>, id: Option<string>): Option<Rule> {
    if id.None? then None else FindRule(rules, id.value)
  }

  /** The first rule that encodes exactly this preference. */
  function FindPreference(rules: seq<Rule>, condition: RuleMatch, action: RuleAction): (r: Option<Rule>)
    ensures r.Some? ==> r.value in rules && r.value.condition == condition && r.value.action == action
  {
    if rules == [] then None
    else if rules[0].condition == condition && rules[0].action == action then Some(rules[0])
    else
      assert rules == [rules[0]] + rules[1..];
      FindPreference(rules[1..], condition, action)
  }

  function Replace(rules: seq<Rule>, updated: Rule): (r: seq<Rule>)
    ensures |r| == |rules|
    ensures forall i :: 0 <= i < |rules| ==> r[i] == if rules[i].id == updated.id then updated else rules[i]
  {
    seq(|rules|, i requires 0 <= i < |rules| => if rules[i].id == updated.id then updated else rules[i])
  }

  /** The rule a confirmation credits: the driving rule when it encodes the confirmed
      action, or else an existing rule with this condition and action. */
  function ConfirmTarget(rules: seq<Rule>, event: LearningEvent): Option<Rule>
    requires event.ConfirmCategory?
  {
    var driver := FindById(rules, event.ruleId);
    if driver.Some? && driver.value.action == event.action then driver
    else FindPreference(rules, event.condition, event.action)
  }

  function Confirm(rules: seq<Rule>, event: LearningEvent, now: Instant, nextId: string, k: nat): LearningOutcome
    requires event.ConfirmCategory?
  {
    var target := ConfirmTarget(rules, event);
    if target.None? then
      var rule := Rule(nextId, event.condition, event.action, TrustForHits(1, k), 1, Some(now), None, Learned, None);
      LearningOutcome(rules + [rule], RuleChange(Created, rule.id, rule.trust))
    else
      var hits := target.value.hits + 1;
      var trust := if target.value.source.HumanExplicit? then Trusted else TrustForHits(hits, k);
      var updated := target.value.(hits := hits, trust := trust, lastConfirmedAt := Some(now));
      LearningOutcome(Replace(rules, updated), RuleChange(Strengthened, updated.id, updated.trust))
  }

  function Correct(rules: seq<Rule>, event: LearningEvent, now: Instant, nextId: string): LearningOutcome
    requires event.CorrectDecision?
  {
    var target := FindById(rules, event.priorRuleId);
    if target.None? then
      var rule := Rule(nextId, event.condition, event.action, Suggested, 0, None, Some(now), Learned, None);
      LearningOutcome(rules + [rule], RuleChange(Created, rule.id, rule.trust))
    else
      var updated := target.value.(action := event.action, trust := Suggested, hits := 0,
                                   lastCorrectedAt := Some(now), source := Learned, offeredAt := None);
      LearningOutcome(Replace(rules, updated), RuleChange(Rewritten, updated.id, updated.trust))
  }

  function Bless(rules: seq<Rule>, event: LearningEvent, now: Instant, nextId: string): LearningOutcome
    requires event.ExplicitCommand?
  {
    var target := FindPreference(rules, event.condition, event.action);
    if target.None? then
      var rule := Rule(nextId, event.condition, event.action, Trusted, 0, Some(now), None, HumanExplicit, None);
      LearningOutcome(rules + [rule], RuleChange(Blessed, rule.id, rule.trust))
    else
      var updated := target.value.(trust := Trusted, source := HumanExplicit, lastConfirmedAt := Some(now));
      LearningOutcome(Replace(rules, updated), RuleChange(Blessed, updated.id, updated.trust))
  }

  function ApplyLearning(rules: seq<Rule>, event: LearningEvent, now: Instant, nextId: string, k: nat):
    LearningOutcome
  {
    match event
    case ConfirmCategory(_, _, _) => Confirm(rules, event, now, nextId, k)
    case CorrectDecision(_, _, _) => Correct(rules, event, now, nextId)
    case ExplicitCommand(_, _) => Bless(rules, event, now, nextId)
  }

  /** The template a decision implies; a split is declined. */
  function ActionOf(decision: Decision): Option<RuleAction> {
    match decision.allocation
    case ResolvedCategory(category, tag) => Some(RuleAction(ProposedCategory(category, tag), decision.memo))
    case ResolvedSplit(_) => None
  }

  /** The learning event a lifecycle effect stands for, if anything is learnable. */
  function EventOf(feed: FeedRuleLearning): Option<LearningEvent> {
    if feed.decision.None? then None
    else
      var action := ActionOf(feed.decision.value);
      if action.None? then None
      else
        var condition := RuleMatch(feed.payee, None, None, None);
        match feed.event
        case ConfirmKind => Some(ConfirmCategory(condition, action.value, feed.decision.value.ruleId))
        case CorrectKind =>
          Some(CorrectDecision(condition, action.value,
                               if feed.prior.Some? then feed.prior.value.ruleId else None))
  }

  /** What is learnable and what is learned: exactly a whole category, for exactly the payee
      seen, as a template that gives back the category, its tag and the memo; a confirmation
      names the rule that drove it, and a correction the rule behind what it replaced. */
  lemma EventIs(feed: FeedRuleLearning)
    ensures EventOf(feed).Some? <==> feed.decision.Some? && feed.decision.value.allocation.ResolvedCategory?
    ensures EventOf(feed).Some? ==>
              var event, decision := EventOf(feed).value, feed.decision.value;
              && event.condition == RuleMatch(feed.payee, None, None, None)
              && event.action.allocation.ProposedCategory?
              && ResolvedCategory(event.action.allocation.category, event.action.allocation.personTag)
                 == decision.allocation
              && event.action.memoTemplate == decision.memo
              && (if feed.event.ConfirmKind? then event.ConfirmCategory? && event.ruleId == decision.ruleId
                  else event.CorrectDecision?
                       && event.priorRuleId == if feed.prior.Some? then feed.prior.value.ruleId else None)
  {
  }

  function PlanRuleUpdate(rules: seq<Rule>, feed: FeedRuleLearning, now: Instant, nextId: string):
    Option<LearningOutcome>
  {
    var event := EventOf(feed);
    if event.None? then None else Some(ApplyLearning(rules, event.value, now, nextId, K_DEFAULT))
  }
}
