/** From a rule to a write: what an automatic application passes on its way, and what all
    of them together can do. */
module AutoPath {
  import opened Prelude
  import opened Allocations
  import opened Domain
  import opened Floor
  import opened Gate
  import opened Learning
  import opened Lifecycle
  import opened Windows
  import Ledger = AutoActionLedger

  /** A transaction the gate let through, on the rules and at the time it looked. */
  datatype Act = Act(snapshot: YnabSnapshot, rules: seq<Rule>, at: Instant)

  ghost function LogOf(acts: seq<Act>): (log: seq<Stamp>)
    ensures |log| == |acts| && forall i :: 0 <= i < |acts| ==> log[i] == Stamp(acts[i].snapshot.ynabId, acts[i].at)
  {
    seq(|acts|, i requires 0 <= i < |acts| => Stamp(acts[i].snapshot.ynabId, acts[i].at))
  }

  /** The counters the ledger reports, when every act before was recorded in it. */
  ghost function CountersBefore(acts: seq<Act>, now: Instant): Counters {
    Ledger.CountersAt(Ledger.Tail(LogOf(acts), Ledger.DAY_WINDOW), now, Ledger.RUN_WINDOW, Ledger.DAY_WINDOW)
  }

  /** Every act was judged AUTO by the gate, on the counters of its moment. */
  ghost predicate Judged(acts: seq<Act>, policy: FloorPolicy) {
    forall i :: 0 <= i < |acts| ==>
      EvaluateGate(acts[i].snapshot, acts[i].rules, CountersBefore(acts[..i], acts[i].at), policy).Auto?
  }

  lemma {:induction false} JudgedIsGated(acts: seq<Act>, policy: FloorPolicy)
    requires Judged(acts, policy)
    ensures Ledger.Gated(LogOf(acts), policy)
  {
    hide Ledger.CountersAt, Ledger.Tail, BlessedMatches, CheckFloor;
    var log := LogOf(acts);
    forall i | 0 <= i < |log| ensures Ledger.Admits(Ledger.Tail(log[..i], Ledger.DAY_WINDOW), log[i].at, policy) {
      assert log[..i] == LogOf(acts[..i]);
      var counters := CountersBefore(acts[..i], acts[i].at);
      assert CheckFloor(Some(acts[i].snapshot.amount), counters, policy) == Allow;
    }
  }

  /** However many rules are blessed and whatever they match, over any trailing hour or day
      no more distinct transactions than the caps are applied without asking, and none of
      them for more than the ceiling or as a matched import. */
  lemma {:induction false} AutomationIsBounded(acts: seq<Act>, policy: FloorPolicy, t: Instant)
    requires Judged(acts, policy) && Chronological(LogOf(acts))
    ensures |Ledger.TrailingIds(LogOf(acts), t, HOUR)| <= policy.perRunCap
    ensures |Ledger.TrailingIds(LogOf(acts), t, DAY)| <= policy.perDayCap
    ensures forall i :: 0 <= i < |acts| ==>
              Abs(acts[i].snapshot.amount) <= policy.perTxnCeiling && acts[i].snapshot.matchedTransactionId.None?
  {
    hide EvaluateGate, Ledger.TrailingIds, Ledger.Gated, Chronological;
    JudgedIsGated(acts, policy);
    Ledger.BreakerBinds(LogOf(acts), policy, t);
    forall i | 0 <= i < |acts|
      ensures Abs(acts[i].snapshot.amount) <= policy.perTxnCeiling && acts[i].snapshot.matchedTransactionId.None?
    {
      var counters := CountersBefore(acts[..i], acts[i].at);
      var outcome := EvaluateGate(acts[i].snapshot, acts[i].rules, counters, policy);
      AutoIff(acts[i].snapshot, acts[i].rules, counters, policy, outcome.ruleId);
    }
  }

  /** Whatever valid template the gating rule carries, the decision built from it is
      accepted by the state machine: it is written, and counted under the transaction's id. */
  method ApplyRule(txn: Transaction, rule: Rule, now: Instant, policy: Lifecycle.Policy) returns (t: Transition)
    requires txn.Enriching? && rule.action.allocation.Valid()
    ensures t.kind.Advanced? && t.next.AutoApplied? && t.next.core == txn.core && Sound(t.next)
    ensures t.next.decision.ruleId == Some(rule.id) && t.next.decision.decidedBy == Agent
    ensures t.effects == [CommitToYnab(t.next.decision), RecordAutoAction(txn.core.snapshot.ynabId)]
  {
    var decision := BuildAutoDecision(rule, txn.core.snapshot, now);
    var event := Enriched(AutoApply(decision));
    RaisesIff(txn, event, now, policy);
    t := Advance(txn, event, now, policy).value;
  }
}
