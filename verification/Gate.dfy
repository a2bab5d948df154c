/** The autonomy gate: may this transaction be applied without asking? */
module Gate {
  import opened Prelude
  import opened Allocations
  import opened Domain
  import opened Floor
  import opened Learning
  import opened Registry
  import Resolve
  import Text

  datatype GateReason = FloorBlocks(floor: FloorVerdict) | MatchedImport | SingleBlessed | NoBlessed | Conflicting

  datatype GateOutcome = Auto(ruleId: string) | Ask(reason: GateReason)

  predicate RuleMatches(rule: Rule, snapshot: YnabSnapshot) {
    var condition := rule.condition;
    && Text.Contains(Text.Lower(snapshot.payee), Text.Lower(condition.payeePattern))
    && (condition.account.Some? ==> condition.account.value == snapshot.account)
    && (condition.amountRange.Some? ==> condition.amountRange.value.Contains(snapshot.amount))
    && (condition.itemKeyword.Some? ==>
          Text.Contains(Text.Lower(snapshot.memo.GetOr("")), Text.Lower(condition.itemKeyword.value)))
  }

  predicate BlessedMatch(rule: Rule, snapshot: YnabSnapshot) {
    RuleMatches(rule, snapshot) && rule.trust.Trusted? && rule.source.HumanExplicit?
  }

  function BlessedMatches(rules: seq<Rule>, snapshot: YnabSnapshot): (r: seq<Rule>)
    ensures forall x :: x in r <==> x in rules && BlessedMatch(x, snapshot)
  {
    if rules == [] then []
    else
      assert rules == [rules[0]] + rules[1..];
      (if BlessedMatch(rules[0], snapshot) then [rules[0]] else []) + BlessedMatches(rules[1..], snapshot)
  }

  function EvaluateGate(snapshot: YnabSnapshot, rules: seq<Rule>, counters: Counters, policy: FloorPolicy):
    GateOutcome
  {
    var floor := CheckFloor(Some(snapshot.amount), counters, policy);
    if !floor.Allow? then Ask(FloorBlocks(floor))
    else if snapshot.matchedTransactionId.Some? then Ask(MatchedImport)
    else
      var blessed := BlessedMatches(rules, snapshot);
      if |blessed| == 1 then Auto(blessed[0].id)
      else if blessed == [] then Ask(NoBlessed)
      else Ask(Conflicting)
  }

  /** Bind the gating rule's template to the transaction as an approved agent decision:
      it always satisfies the validator of the state it is written in. */
  method BuildAutoDecision(rule: Rule, snapshot: YnabSnapshot, decidedAt: Instant) returns (decision: Decision)
    requires rule.action.allocation.Valid()
    ensures Committed(snapshot.amount, decision)
    ensures decision.decidedBy == Agent && decision.ruleId == Some(rule.id) && decision.decidedAt == decidedAt
    ensures decision.memo == rule.action.memoTemplate
    ensures rule.action.allocation.ProposedCategory? ==>
              decision.allocation
              == ResolvedCategory(rule.action.allocation.category, rule.action.allocation.personTag)
    ensures rule.action.allocation.ProposedSplit? ==>
              decision.allocation.ResolvedSplit?
              && Resolve.Apportioned(rule.action.allocation.lines, snapshot.amount, decision.allocation.lines)
  {
    var allocation := Resolve.ResolveAllocation(rule.action.allocation, snapshot.amount);
    decision := Decision(allocation, rule.action.memoTemplate, true, Agent, decidedAt, Some(rule.id));
  }

  // ---------- the gate's load path ----------

  lemma {:induction false} BlessedOfPayee(rules: seq<Rule>, snapshot: YnabSnapshot)
    ensures BlessedMatches(RulesForPayee(rules, snapshot.payee), snapshot) == BlessedMatches(rules, snapshot)
  {
    if rules != [] {
      BlessedOfPayee(rules[1..], snapshot);
      var rest := RulesForPayee(rules[1..], snapshot.payee);
      if PayeeMatches(rules[0], snapshot.payee) {
        assert ([rules[0]] + rest)[1..] == rest;
      } else {
        assert RulesForPayee(rules, snapshot.payee) == rest;
      }
    }
  }

  /** Loading only the payee's rules decides as the whole table would. */
  lemma LoadPathIsLossless(
      snapshot: YnabSnapshot, rules: seq<Rule>, counters: Counters, policy: FloorPolicy)
    ensures EvaluateGate(snapshot, RulesForPayee(rules, snapshot.payee), counters, policy)
         == EvaluateGate(snapshot, rules, counters, policy)
  {
    BlessedOfPayee(rules, snapshot);
  }

  /** `rules[i]` is the one blessed rule of the table that matches, and bears the id. */
  ghost predicate SoleBlessed(rules: seq<Rule>, snapshot: YnabSnapshot, id: string, i: nat) {
    && i < |rules| && rules[i].id == id && BlessedMatch(rules[i], snapshot)
    && forall j :: 0 <= j < |rules| && BlessedMatch(rules[j], snapshot) ==> j == i
  }

  /** Why the gate asks: the floor first, then a matched import, then for want of a blessed
      match; whatever is left is a conflict between several. */
  lemma {:induction false} AskBecause(
      snapshot: YnabSnapshot, rules: seq<Rule>, counters: Counters, policy: FloorPolicy)
    ensures var outcome, floor := EvaluateGate(snapshot, rules, counters, policy),
                                  CheckFloor(Some(snapshot.amount), counters, policy);
            var some := exists i :: 0 <= i < |rules| && BlessedMatch(rules[i], snapshot);
            && (outcome == Ask(FloorBlocks(floor)) <==> floor != Allow)
            && (outcome == Ask(MatchedImport) <==> floor == Allow && snapshot.matchedTransactionId.Some?)
            && (outcome == Ask(NoBlessed) <==> floor == Allow && snapshot.matchedTransactionId.None? && !some)
            && (outcome == Ask(Conflicting) ==>
                  exists i, j :: 0 <= i < j < |rules|
                                 && BlessedMatch(rules[i], snapshot) && BlessedMatch(rules[j], snapshot))
  {
    hide BlessedMatch;
    var blessed := BlessedMatches(rules, snapshot);
    if blessed == [] {
      forall i | 0 <= i < |rules| ensures !BlessedMatch(rules[i], snapshot) {
        assert rules[i] in rules && rules[i] !in blessed;
      }
    } else {
      assert blessed[0] in blessed;
      var i :| 0 <= i < |rules| && rules[i] == blessed[0];
      assert BlessedMatch(rules[i], snapshot);
      if |blessed| > 1 && forall j :: 0 <= j < |rules| && BlessedMatch(rules[j], snapshot) ==> j == i {
        UniqueBlessed(rules, snapshot, i);
      }
    }
  }

  /** AUTO means everything at once, and everything at once means AUTO: the floor allows
      the amount and the counts, it is no matched import, and the named rule is the one
      blessed rule of the table that matches. */
  lemma {:induction false} AutoIff(
      snapshot: YnabSnapshot, rules: seq<Rule>, counters: Counters, policy: FloorPolicy, id: string)
    ensures EvaluateGate(snapshot, rules, counters, policy) == Auto(id) <==>
            && Abs(snapshot.amount) <= policy.perTxnCeiling
            && counters.thisRun < policy.perRunCap && counters.today < policy.perDayCap
            && snapshot.matchedTransactionId.None?
            && exists i :: SoleBlessed(rules, snapshot, id, i)
  {
    hide BlessedMatch;
    var blessed := BlessedMatches(rules, snapshot);
    if |blessed| == 1 {
      OnlyOne(rules, snapshot);
      var i :| 0 <= i < |rules| && rules[i] == blessed[0] && BlessedMatch(rules[i], snapshot)
               && forall j :: 0 <= j < |rules| && BlessedMatch(rules[j], snapshot) ==> j == i;
      assert SoleBlessed(rules, snapshot, blessed[0].id, i);
    }
    if i :| SoleBlessed(rules, snapshot, id, i) {
      UniqueBlessed(rules, snapshot, i);
    }
  }

  lemma {:induction false} NoneMatch(rules: seq<Rule>, snapshot: YnabSnapshot)
    requires forall j :: 0 <= j < |rules| ==> !BlessedMatch(rules[j], snapshot)
    ensures BlessedMatches(rules, snapshot) == []
  {
    if rules != [] {
      NoneMatch(rules[1..], snapshot);
    }
  }

  lemma {:induction false} UniqueBlessed(rules: seq<Rule>, snapshot: YnabSnapshot, i: nat)
    requires i < |rules| && BlessedMatch(rules[i], snapshot)
    requires forall j :: 0 <= j < |rules| && BlessedMatch(rules[j], snapshot) ==> j == i
    ensures BlessedMatches(rules, snapshot) == [rules[i]]
  {
    hide BlessedMatch;
    if i == 0 {
      NoneMatch(rules[1..], snapshot);
    } else {
      UniqueBlessed(rules[1..], snapshot, i - 1);
    }
  }

  lemma {:induction false} OnlyOne(rules: seq<Rule>, snapshot: YnabSnapshot)
    requires |BlessedMatches(rules, snapshot)| == 1
    ensures exists i :: 0 <= i < |rules| && rules[i] == BlessedMatches(rules, snapshot)[0]
              && BlessedMatch(rules[i], snapshot)
              && forall j :: 0 <= j < |rules| && BlessedMatch(rules[j], snapshot) ==> j == i
  {
    if BlessedMatch(rules[0], snapshot) {
      assert BlessedMatches(rules[1..], snapshot) == [];
      forall j | 1 <= j < |rules| ensures !BlessedMatch(rules[j], snapshot) {
        assert rules[1..][j - 1] == rules[j];
        assert rules[j] !in BlessedMatches(rules[1..], snapshot);
      }
    } else {
      OnlyOne(rules[1..], snapshot);
      var i :| 0 <= i < |rules[1..]| && rules[1..][i] == BlessedMatches(rules[1..], snapshot)[0]
               && BlessedMatch(rules[1..][i], snapshot)
               && forall j :: 0 <= j < |rules[1..]| && BlessedMatch(rules[1..][j], snapshot) ==> j == i;
      forall j | 0 <= j < |rules| && BlessedMatch(rules[j], snapshot) ensures j == i + 1 {
        assert j > 0 ==> rules[1..][j - 1] == rules[j];
      }
      assert rules[i + 1] == rules[1..][i];
    }
  }

  /** What a rule's condition asks, part by part: the payee alone when it says no more, and
      each further part narrows it to exactly the transactions of that account, with an
      amount between the bounds it has, both included, or with that word in the memo. */
  lemma {:induction false} ConditionNarrows(rule: Rule, snapshot: YnabSnapshot)
    ensures var condition := rule.condition;
            var payeeOnly := rule.(condition := RuleMatch(condition.payeePattern, None, None, None));
            && (RuleMatches(payeeOnly, snapshot) <==>
                  Text.Contains(Text.Lower(snapshot.payee), Text.Lower(condition.payeePattern)))
            && (RuleMatches(rule, snapshot) <==>
                  && RuleMatches(payeeOnly, snapshot)
                  && (condition.account == None || condition.account == Some(snapshot.account))
                  && (match condition.amountRange
                      case None => true
                      case Some(AmountRange(low, high)) =>
                        && (low == None || low.value <= snapshot.amount)
                        && (high == None || snapshot.amount <= high.value))
                  && (match condition.itemKeyword
                      case None => true
                      case Some(word) =>
                        Text.Contains(Text.Lower(if snapshot.memo == None then "" else snapshot.memo.value),
                                      Text.Lower(word))))
  {
    hide Text.Contains, Text.Lower;
  }

  /** Who may act: the rules of the table that match, are trusted, and were blessed by the
      owner. AUTO needs one of them to bear its id; and leaving out a rule that is none of
      them never changes what the gate decides. */
  lemma {:induction false} OnlyBlessedActs(
      snapshot: YnabSnapshot, rules: seq<Rule>, idle: Rule, counters: Counters, policy: FloorPolicy, id: string)
    ensures EvaluateGate(snapshot, rules, counters, policy) == Auto(id) ==>
              exists r :: r in rules && r.id == id && RuleMatches(r, snapshot) && r.trust == Trusted
                          && r.source == HumanExplicit
    ensures EvaluateGate(snapshot, rules + [idle], counters, policy) == EvaluateGate(snapshot, rules, counters, policy)
            || (RuleMatches(idle, snapshot) && idle.trust == Trusted && idle.source == HumanExplicit)
  {
    hide RuleMatches;
    BlessedAppend(rules, idle, snapshot);
    var blessed := BlessedMatches(rules, snapshot);
    if blessed != [] {
      assert blessed[0] in blessed;
    }
  }

  lemma {:induction false} BlessedAppend(rules: seq<Rule>, rule: Rule, snapshot: YnabSnapshot)
    ensures BlessedMatches(rules + [rule], snapshot)
         == BlessedMatches(rules, snapshot) + if BlessedMatch(rule, snapshot) then [rule] else []
  {
    hide BlessedMatch;
    if rules == [] {
      assert rules + [rule] == [rule] && [rule][1..] == [];
    } else {
      assert (rules + [rule])[1..] == rules[1..] + [rule];
      BlessedAppend(rules[1..], rule, snapshot);
    }
  }
}
