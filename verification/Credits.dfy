/** Trust is counted from real confirmations: a rule's hits are exactly the confirmations
    credited to it since it was made or last corrected. */
module Credits {
  import opened Prelude
  import opened Allocations
  import opened Domain
  import opened Learning
  import opened Registry
  import opened Autonomy
  import opened Gate
  import StableSort
  import Text

  /** The step is a confirmation that counts for the rule `id`. */
  ghost predicate Credited(state: RegistryState, step: Step, id: string) {
    step.Learn? &&
    var event := EventOf(step.feed);
    event.Some? && event.value.ConfirmCategory? &&
    var target := ConfirmTarget(state.rules, event.value);
    id == if target.Some? then target.value.id else step.nextId
  }

  /** The confirmations counted for the rule `id` since the last correction of it. */
  ghost function CreditsOf(steps: seq<Step>, id: string): nat {
    if steps == [] then 0
    else
      var front, step := steps[..|steps| - 1], steps[|steps| - 1];
      var state := After(EMPTY, front);
      if Corrects(state, step, id) then 0
      else CreditsOf(front, id) + if Credited(state, step, id) then 1 else 0
  }

  ghost predicate UniqueIds(rules: seq<Rule>) {
    forall i, j :: 0 <= i < j < |rules| ==> rules[i].id != rules[j].id
  }

  lemma {:induction false} HitsAt(state: RegistryState, step: Step, i: nat)
    requires UniqueIds(state.rules) && Fresh(state.rules, step) && i < |state.rules|
    ensures i < |AfterStep(state, step).rules|
    ensures var id := state.rules[i].id;
            AfterStep(state, step).rules[i].hits
            == if Corrects(state, step, id) then 0
               else state.rules[i].hits + if Credited(state, step, id) then 1 else 0
  {
    hide FindRule, FindPreference, RevokeIds;
    assert state.rules[i] in state.rules;
    if step.Learn? && EventOf(step.feed).Some? && EventOf(step.feed).value.ConfirmCategory? {
      var target := ConfirmTarget(state.rules, EventOf(step.feed).value);
      TargetInTable(state.rules, EventOf(step.feed).value);
      if target.Some? && target.value.id == state.rules[i].id {
        var k :| 0 <= k < |state.rules| && state.rules[k] == target.value;
        assert k == i;
      }
    }
  }

  lemma {:induction false} MintedHits(state: RegistryState, step: Step, r: Rule)
    requires Fresh(state.rules, step) && r in AfterStep(state, step).rules && !InTable(state.rules, r.id)
    ensures !Corrects(state, step, r.id)
    ensures r.hits == if Credited(state, step, r.id) then 1 else 0
  {
    hide FindRule, FindPreference, RevokeIds;
    var after := AfterStep(state, step).rules;
    var i :| 0 <= i < |after| && after[i] == r;
    forall k | 0 <= k < |state.rules| ensures state.rules[k] in state.rules && after[k].id == state.rules[k].id {
      PlaceKept(state, step, k);
    }
  }

  lemma {:induction false} UniqueStep(state: RegistryState, step: Step)
    requires UniqueIds(state.rules) && Fresh(state.rules, step)
    ensures UniqueIds(AfterStep(state, step).rules)
  {
    hide AfterStep;
    var after := AfterStep(state, step).rules;
    forall i, j | 0 <= i < j < |after| ensures after[i].id != after[j].id {
      if i < |state.rules| {
        PlaceKept(state, step, i);
      }
      if j < |state.rules| {
        PlaceKept(state, step, j);
      } else {
        OneMinted(state, step);
        assert state.rules[i] in state.rules;
      }
    }
  }

  /** A step appends at most one rule, under the step's new id. */
  lemma {:induction false} OneMinted(state: RegistryState, step: Step)
    ensures var after := AfterStep(state, step).rules;
            |state.rules| <= |after| <= |state.rules| + 1
            && (|after| == |state.rules| + 1 ==>
                  (step.Learn? || step.Command?) && after[|state.rules|].id == step.nextId)
  {
    hide FindRule, FindPreference, RevokeIds;
  }

  lemma {:induction false} UniqueRun(steps: seq<Step>)
    requires FreshRun(EMPTY, steps)
    ensures UniqueIds(After(EMPTY, steps).rules)
  {
    if steps != [] {
      FreshPrefix(steps);
      UniqueRun(steps[..|steps| - 1]);
      UniqueStep(After(EMPTY, steps[..|steps| - 1]), steps[|steps| - 1]);
    }
  }

  lemma {:induction false} FreshPrefix(steps: seq<Step>)
    requires FreshRun(EMPTY, steps) && steps != []
    ensures FreshRun(EMPTY, steps[..|steps| - 1])
    ensures Fresh(After(EMPTY, steps[..|steps| - 1]).rules, steps[|steps| - 1])
  {
    var front := steps[..|steps| - 1];
    assert forall i :: 0 <= i < |front| ==> front[..i] == steps[..i] && front[i] == steps[i];
  }

  /** No confirmation counts for a rule that was never made. */
  lemma {:induction false} NothingCreditedYet(steps: seq<Step>, id: string)
    requires !InTable(After(EMPTY, steps).rules, id)
    ensures CreditsOf(steps, id) == 0
  {
    if steps != [] {
      var state, step := After(EMPTY, steps[..|steps| - 1]), steps[|steps| - 1];
      StillAbsent(state, step, id);
      NothingCreditedYet(steps[..|steps| - 1], id);
    }
  }

  lemma {:induction false} StillAbsent(state: RegistryState, step: Step, id: string)
    requires !InTable(AfterStep(state, step).rules, id)
    ensures !InTable(state.rules, id) && !Credited(state, step, id)
  {
    hide FindRule, FindPreference, RevokeIds;
    var after := AfterStep(state, step).rules;
    forall k | 0 <= k < |state.rules|
      ensures k < |after| && after[k] in after && after[k].id == state.rules[k].id
    {
      PlaceKept(state, step, k);
    }
    OneMinted(state, step);
    assert after != [] ==> after[|after| - 1] in after;
    if step.Learn? && EventOf(step.feed).Some? && EventOf(step.feed).value.ConfirmCategory? {
      TargetInTable(state.rules, EventOf(step.feed).value);
    }
  }

  /** With fresh ids, a rule's hits are exactly the confirmations credited to it since it
      was made or last corrected; in particular confirming one rule never counts for,
      nor against, another. */
  lemma {:induction false} HitsAreExact(steps: seq<Step>, r: Rule)
    requires FreshRun(EMPTY, steps) && r in After(EMPTY, steps).rules
    ensures r.hits == CreditsOf(steps, r.id)
  {
    hide AfterStep, Corrects, Credited;
    var front, step := steps[..|steps| - 1], steps[|steps| - 1];
    var state := After(EMPTY, front);
    var after := AfterStep(state, step).rules;
    FreshPrefix(steps);
    UniqueRun(front);
    UniqueRun(steps);
    if x :| x in state.rules && x.id == r.id {
      var k :| 0 <= k < |state.rules| && state.rules[k] == x;
      var i :| 0 <= i < |after| && after[i] == r;
      PlaceKept(state, step, k);
      HitsAt(state, step, k);
      assert i == k;
      HitsAreExact(front, x);
    } else {
      MintedHits(state, step, r);
      NothingCreditedYet(front, r.id);
    }
  }

  /** A rule learned from a payee's transaction matches every transaction of that payee, and
      no transaction whose payee does not contain it. */
  lemma {:induction false} LearnedMatchesItsPayee(
      state: RegistryState, feed: FeedRuleLearning, now: Instant, nextId: string, r: Rule, snapshot: YnabSnapshot)
    requires r in RecordLearning(state, feed, now, nextId).rules && !InTable(state.rules, r.id)
    ensures RuleMatches(r, snapshot) <==> Text.Contains(Text.Lower(snapshot.payee), Text.Lower(feed.payee))
    ensures snapshot.payee == feed.payee ==> RuleMatches(r, snapshot)
  {
    hide FindRule, FindPreference;
    var rules := RecordLearning(state, feed, now, nextId).rules;
    var i :| 0 <= i < |rules| && rules[i] == r;
    forall k | 0 <= k < |state.rules| ensures state.rules[k] in state.rules && rules[k].id == state.rules[k].id {
      PlaceKept(state, Learn(feed, now, nextId), k);
    }
    Text.ContainsItself(Text.Lower(feed.payee));
  }

  // ---------- the audit trail ----------

  /** An entry tells what became of the rule it names, `r`, and what kind of step it was. */
  predicate Tells(entry: AuditEntry, r: Rule, step: Step) {
    && entry.change.ruleId == r.id && entry.change.trust == r.trust
    && match entry.change.kind
       case Created => step.Learn? && r.id == step.nextId && r.source.Learned? && r.offeredAt.None?
       case Strengthened => step.Learn? && r.lastConfirmedAt == Some(step.now) && r.hits > 0
       case Rewritten => step.Learn? && r.lastCorrectedAt == Some(step.now) && r.hits == 0 && r.source.Learned?
       case Blessed => step.IsBless() && r.lastConfirmedAt == Some(step.now) && r.source.HumanExplicit?
       case Revoked => step.Revoke? && r.source.Learned? && PayeeMatches(r, step.payee)
  }

  ghost predicate SomeRuleTold(entry: AuditEntry, rules: seq<Rule>, step: Step) {
    exists r :: r in rules && Tells(entry, r, step)
  }

  /** The audit trail is truthful: every entry a step adds carries the step's time and
      tells what became of a rule that is in the table after it. */
  lemma {:induction false} AuditTellsTheTruth(state: RegistryState, step: Step, entry: AuditEntry)
    requires UniqueIds(state.rules) && Fresh(state.rules, step)
    requires entry in AfterStep(state, step).audit && entry !in state.audit
    ensures entry.at == step.now && SomeRuleTold(entry, AfterStep(state, step).rules, step)
  {
    hide FindRule, FindPreference, RevokeIds, Tells, UniqueIds, Fresh;
    match step
    case Learn(feed, now, nextId) => LearningIsTold(state, feed, now, nextId, entry);
    case Command(condition, action, now, nextId) => BlessingIsTold(state, step, entry);
    case Accept(id, now) => BlessingIsTold(state, step, entry);
    case Revoke(payee, now) => RevocationIsTold(state, payee, now, entry);
    case Offered(id, now) =>
  }

  lemma {:induction false} LearningIsTold(
      state: RegistryState, feed: FeedRuleLearning, now: Instant, nextId: string, entry: AuditEntry)
    requires entry in RecordLearning(state, feed, now, nextId).audit && entry !in state.audit
    ensures entry.at == now
    ensures SomeRuleTold(entry, RecordLearning(state, feed, now, nextId).rules, Learn(feed, now, nextId))
  {
    hide FindRule, FindPreference;
    var event := EventOf(feed).value;
    var rules := RecordLearning(state, feed, now, nextId).rules;
    var target := if event.ConfirmCategory? then ConfirmTarget(state.rules, event)
                  else FindById(state.rules, event.priorRuleId);
    if target.None? {
      assert rules[|rules| - 1] in rules && Tells(entry, rules[|rules| - 1], Learn(feed, now, nextId));
    } else {
      var k :| 0 <= k < |state.rules| && state.rules[k] == target.value;
      assert rules[k] in rules && Tells(entry, rules[k], Learn(feed, now, nextId));
    }
  }

  lemma {:induction false} BlessingIsTold(state: RegistryState, step: Step, entry: AuditEntry)
    requires step.IsBless()
    requires entry in AfterStep(state, step).audit && entry !in state.audit
    ensures entry.at == step.now && SomeRuleTold(entry, AfterStep(state, step).rules, step)
  {
    hide FindRule, FindPreference;
    var rules := AfterStep(state, step).rules;
    var target := if step.Command? then FindPreference(state.rules, step.condition, step.action)
                  else FindRule(state.rules, step.id);
    if target.None? {
      assert rules[|rules| - 1] in rules && Tells(entry, rules[|rules| - 1], step);
    } else {
      var k :| 0 <= k < |state.rules| && state.rules[k] == target.value;
      assert rules[k] in rules && Tells(entry, rules[k], step);
    }
  }

  lemma {:induction false} RevocationIsTold(state: RegistryState, payee: string, now: Instant, entry: AuditEntry)
    requires UniqueIds(state.rules)
    requires entry in RevokePayee(state, payee, now).audit && entry !in state.audit
    ensures entry.at == now && SomeRuleTold(entry, RevokePayee(state, payee, now).rules, Revoke(payee, now))
  {
    hide PayeeMatches, RevokeEntries, RevokeIds, LastEntries;
    var ids := RevokeIds(state.rules, payee);
    var rules := RevokePayee(state, payee, now).rules;
    NewEntry(state.audit, RevokeEntries(ids, payee, now), entry);
    EntryNamesRevoked(ids, payee, now, entry);
    var x :| x in state.rules && Revocable(x, payee) && x.id == entry.change.ruleId;
    var k :| 0 <= k < |state.rules| && state.rules[k] == x;
    assert rules[k] in rules && PayeeMatches(rules[k], payee) by {
      SameMatch(x, rules[k], payee);
    }
    assert Tells(entry, rules[k], Revoke(payee, now));
  }

  lemma SameMatch(a: Rule, b: Rule, payee: string)
    requires a.condition == b.condition
    ensures PayeeMatches(a, payee) == PayeeMatches(b, payee)
  {
  }

  lemma NewEntry(audit: seq<AuditEntry>, added: seq<AuditEntry>, entry: AuditEntry)
    requires entry in LastEntries(audit + added) && entry !in audit
    ensures entry in added
  {
  }

  lemma {:induction false} EntryNamesRevoked(ids: seq<string>, payee: string, now: Instant, entry: AuditEntry)
    requires entry in RevokeEntries(ids, payee, now)
    ensures entry.at == now && entry.change.kind.Revoked? && entry.change.trust.Confirmed?
    ensures entry.change.ruleId in ids
  {
    var sorted := StableSort.Sort(Text.LexLeq, ids);
    var i :| 0 <= i < |sorted| && RevokeEntries(ids, payee, now)[i] == entry;
    StableSort.SameElements(Text.LexLeq, ids, sorted[i]);
  }

  // ---------- what the documentation overstates ----------

  function ConfirmOf(payee: string, category: CategoryId, id: string): Step {
    Learn(FeedRuleLearning(ConfirmKind, payee,
                           Some(Decision(ResolvedCategory(category, None), None, true, Human, 0, None)), None), 0, id)
  }

  function HitRule(payee: string, category: CategoryId, id: string, hits: nat): Rule {
    Rule(id, RuleMatch(payee, None, None, None), RuleAction(ProposedCategory(category, None), None),
         TrustForHits(hits, K_DEFAULT), hits, Some(0), None, Learned, None)
  }

  lemma {:induction false} FirstOfA(payee: string, a: CategoryId)
    ensures AfterStep(EMPTY, ConfirmOf(payee, a, "1")).rules == [HitRule(payee, a, "1", 1)]
  {
  }

  lemma {:induction false} FirstOfB(state: RegistryState, payee: string, a: CategoryId, b: CategoryId)
    requires a != b && state.rules == [HitRule(payee, a, "1", 1)]
    ensures AfterStep(state, ConfirmOf(payee, b, "2")).rules == [HitRule(payee, a, "1", 1), HitRule(payee, b, "2", 1)]
  {
    assert FindPreference(state.rules[1..], RuleMatch(payee, None, None, None),
                          RuleAction(ProposedCategory(b, None), None)).None?;
  }

  lemma {:induction false} NextOfA(state: RegistryState, payee: string, a: CategoryId, b: Rule, n: nat, id: string)
    requires n > 0 && b.id != "1" && state.rules == [HitRule(payee, a, "1", n), b]
    ensures AfterStep(state, ConfirmOf(payee, a, id)).rules == [HitRule(payee, a, "1", n + 1), b]
  {
  }

  lemma {:induction false} NextOfB(state: RegistryState, payee: string, a: Rule, b: CategoryId, n: nat, id: string)
    requires n > 0 && a.id != "2" && a.action.allocation != ProposedCategory(b, None)
    requires state.rules == [a, HitRule(payee, b, "2", n)]
    ensures AfterStep(state, ConfirmOf(payee, b, id)).rules == [a, HitRule(payee, b, "2", n + 1)]
  {
    assert FindPreference(state.rules[1..], RuleMatch(payee, None, None, None),
                          RuleAction(ProposedCategory(b, None), None)) == Some(state.rules[1]);
  }

  /** Hits are counted per rule and survive confirmations of another action: a payee
      confirmed as A, B, A, B, A, in turn, does reach a trusted rule for A, although
      the original documents that an oscillating payee never does. */
  lemma {:induction false} OscillationReachesTrusted(payee: string, a: CategoryId, b: CategoryId)
    requires a != b
    ensures var steps := [ConfirmOf(payee, a, "1"), ConfirmOf(payee, b, "2"), ConfirmOf(payee, a, "3"),
                          ConfirmOf(payee, b, "4"), ConfirmOf(payee, a, "5")];
            var rules := After(EMPTY, steps).rules;
            |rules| == 2 && Eligible(rules[0]) && rules[0].action.allocation == ProposedCategory(a, None)
  {
    hide AfterStep, ConfirmOf;
    var steps := [ConfirmOf(payee, a, "1"), ConfirmOf(payee, b, "2"), ConfirmOf(payee, a, "3"),
                  ConfirmOf(payee, b, "4"), ConfirmOf(payee, a, "5")];
    FirstOfA(payee, a);
    RunOneMore(steps, 0);
    FirstOfB(After(EMPTY, steps[..1]), payee, a, b);
    RunOneMore(steps, 1);
    NextOfA(After(EMPTY, steps[..2]), payee, a, HitRule(payee, b, "2", 1), 1, "3");
    RunOneMore(steps, 2);
    NextOfB(After(EMPTY, steps[..3]), payee, HitRule(payee, a, "1", 2), b, 1, "4");
    RunOneMore(steps, 3);
    NextOfA(After(EMPTY, steps[..4]), payee, a, HitRule(payee, b, "2", 2), 2, "5");
    RunOneMore(steps, 4);
    assert steps[..5] == steps;
  }

  lemma {:induction false} RunOneMore(steps: seq<Step>, n: nat)
    requires n < |steps|
    ensures After(EMPTY, steps[..n + 1]) == AfterStep(After(EMPTY, steps[..n]), steps[n])
    ensures n == 0 ==> After(EMPTY, steps[..n]) == EMPTY
  {
    assert steps[..n + 1][..n] == steps[..n];
  }
}
