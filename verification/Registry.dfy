/** The rule registry: the folds its signals apply, and runs of them. */
module Registry {
  import opened Prelude
  import opened Domain
  import opened Learning
  import StableSort
  import Text

  const AUDIT_CAP: nat := 200

  datatype AuditEntry = AuditEntry(at: Instant, payee: string, change: RuleChange)

  datatype RegistryState = RegistryState(rules: seq<Rule>, audit: seq<AuditEntry>)

  const EMPTY := RegistryState([], [])

  function LastEntries(audit: seq<AuditEntry>): (r: seq<AuditEntry>)
    ensures |r| == Min(|audit|, AUDIT_CAP)
  {
    if |audit| <= AUDIT_CAP then audit else audit[|audit| - AUDIT_CAP..]
  }

  function RecordLearning(state: RegistryState, feed: FeedRuleLearning, now: Instant, nextId: string): RegistryState {
    var outcome := PlanRuleUpdate(state.rules, feed, now, nextId);
    if outcome.None? then state
    else RegistryState(outcome.value.rules,
                       LastEntries(state.audit + [AuditEntry(now, feed.payee, outcome.value.change)]))
  }

  function BlessRule(state: RegistryState, command: LearningEvent, now: Instant, nextId: string): RegistryState
    requires command.ExplicitCommand?
  {
    var outcome := ApplyLearning(state.rules, command, now, nextId, K_DEFAULT);
    RegistryState(outcome.rules,
                  LastEntries(state.audit + [AuditEntry(now, command.condition.payeePattern, outcome.change)]))
  }

  predicate Eligible(rule: Rule) {
    rule.trust.Trusted? && rule.source.Learned?
  }

  predicate Pending(rule: Rule) {
    Eligible(rule) && rule.offeredAt.None?
  }

  function PendingOffers(rules: seq<Rule>): (r: seq<Rule>)
    ensures forall x :: x in r <==> x in rules && Pending(x)
  {
    if rules == [] then []
    else
      assert rules == [rules[0]] + rules[1..];
      (if Pending(rules[0]) then [rules[0]] else []) + PendingOffers(rules[1..])
  }

  function MarkOffered(state: RegistryState, id: string, now: Instant): (r: RegistryState)
    ensures r.audit == state.audit && |r.rules| == |state.rules|
    ensures forall i :: 0 <= i < |r.rules| ==>
              r.rules[i] == if state.rules[i].id == id && state.rules[i].offeredAt.None?
                            then state.rules[i].(offeredAt := Some(now)) else state.rules[i]
  {
    state.(rules := seq(|state.rules|, i requires 0 <= i < |state.rules| =>
      if state.rules[i].id == id && state.rules[i].offeredAt.None?
      then state.rules[i].(offeredAt := Some(now)) else state.rules[i]))
  }

  function BlessById(state: RegistryState, id: string, now: Instant): RegistryState {
    var target := FindRule(state.rules, id);
    if target.None? || !Eligible(target.value) then state
    else
      var updated := target.value.(source := HumanExplicit, lastConfirmedAt := Some(now));
      var change := RuleChange(Blessed, id, updated.trust);
      RegistryState(Replace(state.rules, updated),
                    LastEntries(state.audit + [AuditEntry(now, updated.condition.payeePattern, change)]))
  }

  predicate PayeeMatches(rule: Rule, payee: string) {
    Text.Contains(Text.Lower(payee), Text.Lower(rule.condition.payeePattern))
  }

  function RulesForPayee(rules: seq<Rule>, payee: string): (r: seq<Rule>)
    ensures forall x :: x in r <==> x in rules && PayeeMatches(x, payee)
  {
    if rules == [] then []
    else
      assert rules == [rules[0]] + rules[1..];
      (if PayeeMatches(rules[0], payee) then [rules[0]] else []) + RulesForPayee(rules[1..], payee)
  }

  predicate Revocable(rule: Rule, payee: string) {
    PayeeMatches(rule, payee) && rule.source.HumanExplicit?
  }

  /** The ids of the blessed rules the payee matches, each once. */
  function RevokeIds(rules: seq<Rule>, payee: string): (r: seq<string>)
    ensures forall id :: id in r <==> exists x :: x in rules && Revocable(x, payee) && x.id == id
  {
    if rules == [] then []
    else
      var front, last := rules[..|rules| - 1], rules[|rules| - 1];
      assert rules == front + [last];
      var ids := RevokeIds(front, payee);
      if Revocable(last, payee) && last.id !in ids then ids + [last.id] else ids
  }

  function Demote(rules: seq<Rule>, targets: seq<string>): (r: seq<Rule>)
    ensures |r| == |rules|
    ensures forall i :: 0 <= i < |rules| ==>
              r[i] == if rules[i].id in targets then rules[i].(source := Learned, trust := Confirmed) else rules[i]
  {
    seq(|rules|, i requires 0 <= i < |rules| =>
      if rules[i].id in targets then rules[i].(source := Learned, trust := Confirmed) else rules[i])
  }

  /** One audit entry per revoked rule, in id order. */
  function RevokeEntries(ids: seq<string>, payee: string, now: Instant): seq<AuditEntry> {
    var sorted := StableSort.Sort(Text.LexLeq, ids);
    seq(|sorted|, i requires 0 <= i < |sorted| => AuditEntry(now, payee, RuleChange(Revoked, sorted[i], Confirmed)))
  }

  function RevokePayee(state: RegistryState, payee: string, now: Instant): RegistryState {
    var targets := RevokeIds(state.rules, payee);
    if targets == [] then state
    else RegistryState(Demote(state.rules, targets), LastEntries(state.audit + RevokeEntries(targets, payee, now)))
  }

  // ---------- runs ----------

  datatype Step =
    | Learn(feed: FeedRuleLearning, now: Instant, nextId: string)
    | Command(condition: RuleMatch, action: RuleAction, now: Instant, nextId: string)
    | Accept(id: string, now: Instant)
    | Revoke(payee: string, now: Instant)
    | Offered(id: string, now: Instant)
  {
    /** The two steps in which the owner grants autonomy. */
    predicate IsBless() { Command? || Accept? }
  }

  function AfterStep(state: RegistryState, step: Step): RegistryState {
    match step
    case Learn(feed, now, nextId) => RecordLearning(state, feed, now, nextId)
    case Command(condition, action, now, nextId) =>
      BlessRule(state, ExplicitCommand(condition, action), now, nextId)
    case Accept(id, now) => BlessById(state, id, now)
    case Revoke(payee, now) => RevokePayee(state, payee, now)
    case Offered(id, now) => MarkOffered(state, id, now)
  }

  function After(start: RegistryState, steps: seq<Step>): RegistryState {
    if steps == [] then start
    else AfterStep(After(start, steps[..|steps| - 1]), steps[|steps| - 1])
  }

  ghost predicate NoBless(steps: seq<Step>) {
    forall i :: 0 <= i < |steps| ==> !steps[i].IsBless()
  }

  // ---------- what one step does to a rule ----------

  /** The step blesses the rule `id`; a stale acceptance blesses nothing. */
  ghost predicate Grants(state: RegistryState, step: Step, id: string) {
    match step
    case Command(condition, action, _, nextId) =>
      var target := FindPreference(state.rules, condition, action);
      id == if target.Some? then target.value.id else nextId
    case Accept(accepted, _) =>
      var target := FindRule(state.rules, accepted);
      id == accepted && target.Some? && Eligible(target.value)
    case Learn(_, _, _) => false
    case Revoke(_, _) => false
    case Offered(_, _) => false
  }

  /** The step corrects the rule `id`: a learnable correction of a decision it drove. */
  ghost predicate Corrects(state: RegistryState, step: Step, id: string) {
    step.Learn? &&
    var event := EventOf(step.feed);
    event.Some? && event.value.CorrectDecision? && event.value.priorRuleId == Some(id)
    && FindRule(state.rules, id).Some?
  }

  /** The step takes autonomy away from the rule `id`. */
  ghost predicate Withdraws(state: RegistryState, step: Step, id: string) {
    Corrects(state, step, id) || (step.Revoke? && id in RevokeIds(state.rules, step.payee))
  }

  /** The audit tail never outgrows its cap. */
  lemma {:induction false} AuditBounded(steps: seq<Step>)
    ensures |After(EMPTY, steps).audit| <= 200
  {
    if steps != [] {
      AuditBounded(steps[..|steps| - 1]);
    }
  }

  // ---------- marking and revoking, once and for all ----------

  /** Marking retires exactly the id from the pending offers, and marking again changes
      nothing: the first offer's time stands. */
  lemma {:induction false} MarkedOnce(state: RegistryState, id: string, now: Instant, later: Instant)
    ensures var marked := MarkOffered(state, id, now);
            && MarkOffered(marked, id, later) == marked
            && PendingOffers(marked.rules) == PendingExcept(state.rules, id)
  {
    var marked := MarkOffered(state, id, now);
    assert MarkOffered(marked, id, later).rules == marked.rules;
    RetiresPending(state.rules, marked.rules, id);
  }

  /** The pending offers of other ids, in order. */
  function PendingExcept(rules: seq<Rule>, id: string): seq<Rule> {
    if rules == [] then []
    else (if Pending(rules[0]) && rules[0].id != id then [rules[0]] else []) + PendingExcept(rules[1..], id)
  }

  lemma {:induction false} RetiresPending(before: seq<Rule>, after: seq<Rule>, id: string)
    requires |after| == |before|
    requires forall i :: 0 <= i < |before| ==>
               if before[i].id == id then !Pending(after[i]) else after[i] == before[i]
    ensures PendingOffers(after) == PendingExcept(before, id)
  {
    if before != [] {
      RetiresPending(before[1..], after[1..], id);
    }
  }

  lemma {:induction false} NothingToRevoke(rules: seq<Rule>, payee: string)
    requires forall x :: x in rules ==> !Revocable(x, payee)
    ensures RevokeIds(rules, payee) == []
  {
    if rules != [] {
      var front := rules[..|rules| - 1];
      assert rules == front + [rules[|rules| - 1]];
      NothingToRevoke(front, payee);
    }
  }

  /** A revocation withdraws autonomy from exactly the rules it names, leaves none the payee
      matches blessed, and repeated changes nothing, not even the audit. */
  lemma {:induction false} RevokedOnce(state: RegistryState, payee: string, now: Instant, later: Instant)
    ensures var revoked := RevokePayee(state, payee, now);
            && RevokePayee(revoked, payee, later) == revoked
            && forall r :: r in revoked.rules && r.source.HumanExplicit? <==>
                 r in state.rules && r.source.HumanExplicit? && r.id !in RevokeIds(state.rules, payee)
  {
    hide PayeeMatches, LastEntries, RevokeEntries;
    var ids, revoked := RevokeIds(state.rules, payee), RevokePayee(state, payee, now);
    forall r ensures r in revoked.rules && r.source.HumanExplicit? <==>
                     r in state.rules && r.source.HumanExplicit? && r.id !in ids
    {
      BlessedAfterRevoke(state, payee, now, r);
    }
    forall r | r in revoked.rules && r.source.HumanExplicit? ensures !PayeeMatches(r, payee) {
      assert r in state.rules && r.id !in ids;
    }
    NothingToRevoke(revoked.rules, payee);
  }

  lemma {:induction false} BlessedAfterRevoke(state: RegistryState, payee: string, now: Instant, r: Rule)
    ensures r in RevokePayee(state, payee, now).rules && r.source.HumanExplicit? <==>
            r in state.rules && r.source.HumanExplicit? && r.id !in RevokeIds(state.rules, payee)
  {
    hide PayeeMatches, LastEntries, RevokeEntries, RevokeIds;
    var ids, after := RevokeIds(state.rules, payee), RevokePayee(state, payee, now).rules;
    if r in after && r.source.HumanExplicit? {
      var i :| 0 <= i < |after| && after[i] == r;
      assert state.rules[i] in state.rules;
    }
    if r in state.rules && r.source.HumanExplicit? && r.id !in ids {
      var i :| 0 <= i < |state.rules| && state.rules[i] == r;
      assert after[i] == r;
    }
  }
}
