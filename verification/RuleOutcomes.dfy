/** What each step of the registry does to the rule table: which rule it finds, what becomes
    of it, and that every other rule stays as it is. A place past the table means none. */
module RuleOutcomes {
  import opened Prelude
  import opened Allocations
  import opened Domain
  import opened Learning
  import opened Registry
  import StableSort
  import Text

  /** The first place of the id, or past the table when no rule has it. */
  ghost predicate PlaceOf(rules: seq<Rule>, id: string, i: nat) {
    i <= |rules| && (i < |rules| ==> rules[i].id == id) && forall k :: 0 <= k < i ==> rules[k].id != id
  }

  predicate Encodes(rule: Rule, condition: RuleMatch, action: RuleAction) {
    rule.condition == condition && rule.action == action
  }

  /** The first place of a rule for exactly this preference, or past the table. */
  ghost predicate PreferredPlace(rules: seq<Rule>, condition: RuleMatch, action: RuleAction, i: nat) {
    i <= |rules| && (i < |rules| ==> Encodes(rules[i], condition, action))
    && forall k :: 0 <= k < i ==> !Encodes(rules[k], condition, action)
  }

  /** Only the rules of this id change, and they become `updated`. */
  ghost predicate Becomes(before: seq<Rule>, after: seq<Rule>, updated: Rule) {
    && |after| == |before|
    && forall k :: 0 <= k < |before| ==> after[k] == if before[k].id == updated.id then updated else before[k]
  }

  lemma {:induction false} FoundById(rules: seq<Rule>, id: string) returns (i: nat)
    ensures PlaceOf(rules, id, i) && FindRule(rules, id) == if i < |rules| then Some(rules[i]) else None
  {
    if rules == [] || rules[0].id == id {
      i := 0;
    } else {
      i := FoundById(rules[1..], id);
      i := i + 1;
    }
  }

  lemma {:induction false} FoundByPreference(rules: seq<Rule>, condition: RuleMatch, action: RuleAction)
    returns (i: nat)
    ensures PreferredPlace(rules, condition, action, i)
    ensures FindPreference(rules, condition, action) == if i < |rules| then Some(rules[i]) else None
  {
    if rules == [] || Encodes(rules[0], condition, action) {
      i := 0;
    } else {
      i := FoundByPreference(rules[1..], condition, action);
      i := i + 1;
    }
  }

  /** The confirmation names `rules[i]`, which still has the confirmed action. */
  ghost predicate Named(rules: seq<Rule>, event: LearningEvent, i: nat)
    requires event.ConfirmCategory?
  {
    i < |rules| && event.ruleId.Some? && PlaceOf(rules, event.ruleId.value, i) && rules[i].action == event.action
  }

  /** Where a confirmation counts: at the rule it names, when it still has that action, and
      otherwise at the first for this payee and action, if there is one. */
  ghost predicate CountsAt(rules: seq<Rule>, event: LearningEvent, i: nat)
    requires event.ConfirmCategory?
  {
    Named(rules, event, i)
    || ((forall k: nat :: !Named(rules, event, k)) && PreferredPlace(rules, event.condition, event.action, i))
  }

  lemma {:induction false} TargetCounts(rules: seq<Rule>, event: LearningEvent) returns (i: nat)
    requires event.ConfirmCategory?
    ensures CountsAt(rules, event, i) && i <= |rules|
    ensures ConfirmTarget(rules, event) == if i < |rules| then Some(rules[i]) else None
  {
    hide FindRule, FindPreference;
    i := FoundByPreference(rules, event.condition, event.action);
    if event.ruleId.Some? {
      var k := FoundById(rules, event.ruleId.value);
      if Named(rules, event, k) {
        i := k;
      } else {
        forall n: nat ensures !Named(rules, event, n) {
          assert PlaceOf(rules, event.ruleId.value, n) && n < |rules| ==> n == k;
        }
      }
    }
  }

  /** Trust by the count: none, some, or three and more. */
  predicate Earns(trust: TrustState, hits: nat) {
    (trust == Trusted <==> hits >= 3) && (trust == Suggested <==> hits == 0)
  }

  /** A confirmation adds one hit where it counts, and that rule keeps its blessing or earns
      its trust by the count; counting nowhere, it makes a rule for this payee and action. */
  lemma {:induction false} ConfirmGoes(rules: seq<Rule>, event: LearningEvent, now: Instant, nextId: string)
    returns (i: nat, trust: TrustState)
    requires event.ConfirmCategory?
    ensures CountsAt(rules, event, i)
    ensures var after := ApplyLearning(rules, event, now, nextId, K_DEFAULT).rules;
            if i < |rules| then
              && (if rules[i].source.HumanExplicit? then trust == Trusted else Earns(trust, rules[i].hits + 1))
              && Becomes(rules, after, rules[i].(hits := rules[i].hits + 1, trust := trust,
                                                 lastConfirmedAt := Some(now)))
            else after == rules + [Rule(nextId, event.condition, event.action, Confirmed, 1, Some(now), None,
                                        Learned, None)]
  {
    hide ConfirmTarget, CountsAt;
    i := TargetCounts(rules, event);
    if i < |rules| {
      trust := if rules[i].source.HumanExplicit? then Trusted else TrustForHits(rules[i].hits + 1, K_DEFAULT);
    } else {
      trust := Confirmed;
    }
  }

  /** A correction gives the rule it names the new action and takes its trust, its hits, its
      blessing and its offer; naming none of the table, it suggests a new rule. */
  lemma {:induction false} CorrectGoes(rules: seq<Rule>, event: LearningEvent, now: Instant, nextId: string)
    returns (i: nat)
    requires event.CorrectDecision?
    ensures if event.priorRuleId.Some? then PlaceOf(rules, event.priorRuleId.value, i) else i == |rules|
    ensures var after := ApplyLearning(rules, event, now, nextId, K_DEFAULT).rules;
            if i < |rules| then
              Becomes(rules, after, Rule(rules[i].id, rules[i].condition, event.action, Suggested, 0,
                                         rules[i].lastConfirmedAt, Some(now), Learned, None))
            else after == rules + [Rule(nextId, event.condition, event.action, Suggested, 0, None, Some(now),
                                        Learned, None)]
  {
    hide FindRule;
    i := |rules|;
    if event.priorRuleId.Some? {
      i := FoundById(rules, event.priorRuleId.value);
    }
  }

  /** A standing command blesses the first rule for this payee and action, whatever its trust,
      keeping its hits and offer; without one it makes a blessed rule. */
  lemma {:induction false} CommandGoes(
      rules: seq<Rule>, condition: RuleMatch, action: RuleAction, now: Instant, nextId: string)
    returns (i: nat)
    ensures PreferredPlace(rules, condition, action, i)
    ensures var after := ApplyLearning(rules, ExplicitCommand(condition, action), now, nextId, K_DEFAULT).rules;
            if i < |rules| then
              Becomes(rules, after, rules[i].(trust := Trusted, source := HumanExplicit, lastConfirmedAt := Some(now)))
            else after == rules + [Rule(nextId, condition, action, Trusted, 0, Some(now), None, HumanExplicit, None)]
  {
    hide FindPreference;
    i := FoundByPreference(rules, condition, action);
  }

  /** Accepting an offer blesses the rule of that id while it is learned and trusted; a stale
      acceptance, of a rule since corrected, blessed or gone, changes nothing. */
  lemma {:induction false} AcceptGoes(state: RegistryState, id: string, now: Instant) returns (i: nat)
    ensures PlaceOf(state.rules, id, i)
    ensures var after := BlessById(state, id, now);
            if i < |state.rules| && state.rules[i].trust == Trusted && state.rules[i].source == Learned then
              Becomes(state.rules, after.rules,
                      state.rules[i].(source := HumanExplicit, lastConfirmedAt := Some(now)))
            else after == state
  {
    hide FindRule, LastEntries;
    i := FoundById(state.rules, id);
  }

  /** A blessed rule whose payee pattern the payee contains, letter case aside. */
  predicate Names(payee: string, rule: Rule) {
    rule.source == HumanExplicit && Text.Contains(Text.Lower(payee), Text.Lower(rule.condition.payeePattern))
  }

  /** A revocation takes blessing and trust from exactly the rules that share their id with a
      blessed rule the payee names, and touches nothing else, not even a learned rule of
      the same payee. */
  lemma {:induction false} RevokeGoes(state: RegistryState, payee: string, now: Instant)
    ensures var after := RevokePayee(state, payee, now).rules;
            && |after| == |state.rules|
            && forall k :: 0 <= k < |state.rules| ==>
                 after[k] == if exists r :: r in state.rules && r.id == state.rules[k].id && Names(payee, r)
                             then state.rules[k].(source := Learned, trust := Confirmed) else state.rules[k]
  {
    hide Text.Contains, Text.Lower, LastEntries, RevokeEntries;
    var ids, after := RevokeIds(state.rules, payee), RevokePayee(state, payee, now).rules;
    forall k | 0 <= k < |state.rules|
      ensures after[k] == if state.rules[k].id in ids
                          then state.rules[k].(source := Learned, trust := Confirmed) else state.rules[k]
    {
    }
    forall r | r in state.rules ensures Revocable(r, payee) <==> Names(payee, r) {
    }
  }

  /** The offers that are due: exactly the rules learned, trusted and never offered. */
  lemma {:induction false} OffersDue(rules: seq<Rule>, r: Rule)
    ensures r in PendingOffers(rules) <==>
            r in rules && r.source == Learned && r.trust == Trusted && r.offeredAt == None
  {
  }

  /** The audit with these entries added, as much of its end as it keeps. */
  ghost predicate Latest(before: seq<AuditEntry>, added: seq<AuditEntry>, after: seq<AuditEntry>) {
    var all := before + added;
    |after| == Min(|all|, 200) && forall k :: 0 <= k < |after| ==> after[k] == all[|all| - |after| + k]
  }

  lemma LatestKept(before: seq<AuditEntry>, added: seq<AuditEntry>)
    ensures Latest(before, added, LastEntries(before + added))
  {
  }

  /** Every change of the table is audited at its time, and only changes are: one entry for
      what is learned, commanded or accepted, one for each rule revoked, in id order, none
      for an offer; and the audit keeps its latest two hundred. */
  lemma {:induction false} AuditGrows(state: RegistryState, step: Step) returns (added: seq<AuditEntry>)
    requires |state.audit| <= 200
    ensures Latest(state.audit, added, AfterStep(state, step).audit)
    ensures forall e :: e in added ==> e.at == step.now
    ensures |added| == match step
                       case Learn(feed, _, _) => if EventOf(feed).Some? then 1 else 0
                       case Command(_, _, _, _) => 1
                       case Accept(id, _) => if AfterStep(state, step).rules != state.rules then 1 else 0
                       case Revoke(payee, _) => |RevokeIds(state.rules, payee)|
                       case Offered(_, _) => 0
    ensures step.Learn? ==> forall e :: e in added ==> e.payee == step.feed.payee
    ensures step.Command? ==> forall e :: e in added ==> e.payee == step.condition.payeePattern
    ensures step.Revoke? ==>
              && (forall e :: e in added ==> e.payee == step.payee && e.change.kind == Revoked)
              && forall j, k :: 0 <= j < k < |added| ==> Text.LexLeq(added[j].change.ruleId, added[k].change.ruleId)
  {
    hide FindRule, FindPreference, RevokeIds, LastEntries, Text.LexLeq, Latest;
    added := [];
    NothingAudited(state.audit);
    match step
    case Learn(feed, now, nextId) =>
      var outcome := PlanRuleUpdate(state.rules, feed, now, nextId);
      if outcome.Some? {
        added := [AuditEntry(now, feed.payee, outcome.value.change)];
        LatestKept(state.audit, added);
      }
    case Command(condition, action, now, nextId) =>
      var outcome := ApplyLearning(state.rules, ExplicitCommand(condition, action), now, nextId, K_DEFAULT);
      added := [AuditEntry(now, condition.payeePattern, outcome.change)];
      LatestKept(state.audit, added);
    case Accept(id, now) =>
      added := AcceptAudited(state, id, now);
    case Revoke(payee, now) =>
      added := RevokeAudited(state, payee, now);
    case Offered(id, now) =>
  }

  lemma NothingAudited(audit: seq<AuditEntry>)
    requires |audit| <= 200
    ensures Latest(audit, [], audit)
  {
  }

  lemma {:induction false} AcceptAudited(state: RegistryState, id: string, now: Instant)
    returns (added: seq<AuditEntry>)
    requires |state.audit| <= 200
    ensures Latest(state.audit, added, BlessById(state, id, now).audit)
    ensures |added| == if BlessById(state, id, now).rules != state.rules then 1 else 0
    ensures forall e :: e in added ==> e.at == now
  {
    hide FindRule, LastEntries, Latest;
    var target := FindRule(state.rules, id);
    if target.Some? && Eligible(target.value) {
      added := [AuditEntry(now, target.value.condition.payeePattern, RuleChange(Blessed, id, target.value.trust))];
      LatestKept(state.audit, added);
      var k :| 0 <= k < |state.rules| && state.rules[k] == target.value;
      assert BlessById(state, id, now).rules[k].source == HumanExplicit;
    } else {
      added := [];
      NothingAudited(state.audit);
    }
  }

  lemma {:induction false} RevokeAudited(state: RegistryState, payee: string, now: Instant)
    returns (added: seq<AuditEntry>)
    requires |state.audit| <= 200
    ensures Latest(state.audit, added, RevokePayee(state, payee, now).audit)
    ensures |added| == |RevokeIds(state.rules, payee)|
    ensures forall e :: e in added ==> e.at == now && e.payee == payee && e.change.kind == Revoked
    ensures forall j, k :: 0 <= j < k < |added| ==> Text.LexLeq(added[j].change.ruleId, added[k].change.ruleId)
  {
    hide RevokeIds, LastEntries, Text.LexLeq, Latest;
    var ids := RevokeIds(state.rules, payee);
    added := RevokeEntries(ids, payee, now);
    IdsInOrder(ids);
    if ids == [] {
      NothingAudited(state.audit);
    } else {
      LatestKept(state.audit, added);
    }
  }

  lemma {:induction false} IdsInOrder(ids: seq<string>)
    ensures var sorted := StableSort.Sort(Text.LexLeq, ids);
            |sorted| == |ids| && forall j, k :: 0 <= j < k < |sorted| ==> Text.LexLeq(sorted[j], sorted[k])
  {
    LexIsTotalPreorder();
    StableSort.Sorted(Text.LexLeq, ids);
    assert |multiset(ids)| == |multiset(StableSort.Sort(Text.LexLeq, ids))|;
  }

  lemma LexIsTotalPreorder()
    ensures StableSort.TotalPreorder(Text.LexLeq)
  {
    forall a: string, b: string ensures Text.LexLeq(a, b) || Text.LexLeq(b, a) {
      Text.LexTotal(a, b);
    }
    forall a: string, b: string, c: string | Text.LexLeq(a, b) && Text.LexLeq(b, c) ensures Text.LexLeq(a, c) {
      Text.LexTransitive(a, b, c);
    }
  }
}
