/** The fresh offer promised after a revocation: which revoked rules get it. */
module Reoffers {
  import opened Prelude
  import opened Allocations
  import opened Domain
  import opened Learning
  import opened Registry
  import opened Autonomy
  import opened Credits
  import Text

  // ---------- the exact condition ----------

  /** The step is an offer of the rule `id`. */
  predicate Offers(step: Step, id: string) {
    step.Offered? && step.id == id
  }

  ghost predicate OfferedIn(steps: seq<Step>, id: string) {
    exists i :: 0 <= i < |steps| && Offers(steps[i], id)
  }

  /** The run never corrects the rule. */
  ghost predicate Uncorrected(start: RegistryState, steps: seq<Step>, id: string) {
    forall i :: 0 <= i < |steps| ==> !Corrects(After(start, steps[..i]), steps[i], id)
  }

  lemma {:induction false} StampStep(state: RegistryState, step: Step, i: nat)
    requires i < |state.rules| && !Corrects(state, step, state.rules[i].id) && UniqueIds(state.rules)
    ensures i < |AfterStep(state, step).rules|
    ensures AfterStep(state, step).rules[i].id == state.rules[i].id
    ensures AfterStep(state, step).rules[i].offeredAt.Some?
            <==> state.rules[i].offeredAt.Some? || Offers(step, state.rules[i].id)
  {
    hide FindRule, FindPreference, RevokeIds, LastEntries;
    assert state.rules[i] in state.rules;
    if step.Learn? {
      StampLearn(state, step, i);
    }
  }

  lemma {:induction false} StampLearn(state: RegistryState, step: Step, i: nat)
    requires step.Learn?
    requires i < |state.rules| && !Corrects(state, step, state.rules[i].id) && UniqueIds(state.rules)
    ensures i < |AfterStep(state, step).rules|
    ensures AfterStep(state, step).rules[i].id == state.rules[i].id
    ensures AfterStep(state, step).rules[i].offeredAt.Some?
            <==> state.rules[i].offeredAt.Some? || Offers(step, state.rules[i].id)
  {
    hide FindRule, FindPreference, LastEntries, ActionOf;
    assert state.rules[i] in state.rules;
    if EventOf(step.feed).Some? && EventOf(step.feed).value.ConfirmCategory? {
      TargetInTable(state.rules, EventOf(step.feed).value);
    }
  }

  lemma {:induction false} RunPrefix(start: RegistryState, steps: seq<Step>, id: string)
    requires steps != [] && FreshRun(start, steps) && Uncorrected(start, steps, id)
    ensures var n := |steps| - 1;
            && FreshRun(start, steps[..n]) && Uncorrected(start, steps[..n], id)
            && Fresh(After(start, steps[..n]).rules, steps[n]) && !Corrects(After(start, steps[..n]), steps[n], id)
            && (OfferedIn(steps, id) <==> OfferedIn(steps[..n], id) || Offers(steps[n], id))
  {
    hide Fresh, Corrects, After, Offers;
    var n := |steps| - 1;
    forall i | 0 <= i < n
      ensures Fresh(After(start, steps[..n][..i]).rules, steps[..n][i])
      ensures !Corrects(After(start, steps[..n][..i]), steps[..n][i], id)
    {
      assert steps[..n][..i] == steps[..i] && steps[..n][i] == steps[i];
    }
    if i :| 0 <= i < n && Offers(steps[..n][i], id) {
      assert Offers(steps[i], id);
    }
    if i :| 0 <= i < n && Offers(steps[i], id) {
      assert Offers(steps[..n][i], id);
    }
  }

  lemma {:induction false} StampCarried(start: RegistryState, steps: seq<Step>, k: nat)
    requires UniqueIds(start.rules) && k < |start.rules|
    requires FreshRun(start, steps) && Uncorrected(start, steps, start.rules[k].id)
    ensures UniqueIds(After(start, steps).rules) && k < |After(start, steps).rules|
    ensures After(start, steps).rules[k].id == start.rules[k].id
    ensures After(start, steps).rules[k].offeredAt.Some?
            <==> start.rules[k].offeredAt.Some? || OfferedIn(steps, start.rules[k].id)
  {
    if steps != [] {
      hide AfterStep, Corrects, Fresh, UniqueIds, Uncorrected, FreshRun, OfferedIn, Offers;
      var front, step := steps[..|steps| - 1], steps[|steps| - 1];
      RunPrefix(start, steps, start.rules[k].id);
      StampCarried(start, front, k);
      StampStep(After(start, front), step, k);
      UniqueStep(After(start, front), step);
    }
  }

  /** On a run with fresh ids that does not correct it, an eligible rule is pending exactly
      when it carried no offer stamp at the start and has not been offered since: one
      offer, and no second. */
  lemma {:induction false} PendingIff(start: RegistryState, steps: seq<Step>, was: Rule, r: Rule)
    requires UniqueIds(start.rules) && was in start.rules
    requires FreshRun(start, steps) && Uncorrected(start, steps, was.id)
    requires r in After(start, steps).rules && r.id == was.id && Eligible(r)
    ensures Pending(r) <==> was.offeredAt.None? && !OfferedIn(steps, was.id)
  {
    hide After, FreshRun, Uncorrected, OfferedIn;
    var k :| 0 <= k < |start.rules| && start.rules[k] == was;
    StampCarried(start, steps, k);
    var i :| 0 <= i < |After(start, steps).rules| && After(start, steps).rules[i] == r;
    assert i == k;
  }

  /** The fresh offer after a revocation: while the rule is not corrected, once it is
      eligible again it is offered exactly when it carried no stamp when it was revoked. */
  lemma {:induction false} FreshOfferIff(
      state: RegistryState, payee: string, now: Instant, steps: seq<Step>, was: Rule, r: Rule)
    requires UniqueIds(state.rules) && was in state.rules && was.id in RevokeIds(state.rules, payee)
    requires FreshRun(RevokePayee(state, payee, now), steps)
    requires Uncorrected(RevokePayee(state, payee, now), steps, was.id)
    requires r in After(RevokePayee(state, payee, now), steps).rules && r.id == was.id && Eligible(r)
    ensures Pending(r) <==> was.offeredAt.None? && !OfferedIn(steps, was.id)
  {
    hide After, RevokeIds, FreshRun, Uncorrected, RevokeEntries, LastEntries, OfferedIn;
    var start := RevokePayee(state, payee, now);
    var k :| 0 <= k < |state.rules| && state.rules[k] == was;
    assert UniqueIds(start.rules);
    assert start.rules[k] in start.rules && start.rules[k].offeredAt == was.offeredAt;
    PendingIff(start, steps, start.rules[k], r);
  }

  // ---------- both cases happen ----------

  /** A rule for one category of one payee, alone in the table. */
  function Solo(
      payee: string, category: CategoryId, hits: nat, trust: TrustState, source: RuleSource,
      offered: Option<Instant>): Rule
  {
    Rule("1", RuleMatch(payee, None, None, None), RuleAction(ProposedCategory(category, None), None),
         trust, hits, Some(0), None, source, offered)
  }

  function CommandOf(payee: string, category: CategoryId, id: string): Step {
    Command(RuleMatch(payee, None, None, None), RuleAction(ProposedCategory(category, None), None), 0, id)
  }

  lemma {:induction false} SoloConfirmed(
      state: RegistryState, payee: string, category: CategoryId, hits: nat, trust: TrustState,
      offered: Option<Instant>, id: string)
    requires state.rules == [Solo(payee, category, hits, trust, Learned, offered)]
    ensures AfterStep(state, ConfirmOf(payee, category, id)).rules
         == [Solo(payee, category, hits + 1, TrustForHits(hits + 1, K_DEFAULT), Learned, offered)]
  {
  }

  lemma {:induction false} SoloRevoked(
      state: RegistryState, payee: string, category: CategoryId, hits: nat, offered: Option<Instant>)
    requires state.rules == [Solo(payee, category, hits, Trusted, HumanExplicit, offered)]
    ensures AfterStep(state, Revoke(payee, 0)).rules == [Solo(payee, category, hits, Confirmed, Learned, offered)]
  {
    hide Text.Lower, Text.Contains;
    var rule := Solo(payee, category, hits, Trusted, HumanExplicit, offered);
    Text.ContainsItself(Text.Lower(payee));
    assert rule in state.rules && Revocable(rule, payee);
    assert "1" in RevokeIds(state.rules, payee);
  }

  lemma {:induction false} SoloOfferedAndBlessed(state: RegistryState, payee: string, category: CategoryId, hits: nat)
    requires state.rules == [Solo(payee, category, hits, Trusted, Learned, None)]
    ensures AfterStep(AfterStep(state, Offered("1", 0)), Accept("1", 0)).rules
         == [Solo(payee, category, hits, Trusted, HumanExplicit, Some(0))]
  {
  }

  lemma {:induction false} SoloCommanded(payee: string, category: CategoryId)
    ensures AfterStep(EMPTY, CommandOf(payee, category, "1")).rules
         == [Solo(payee, category, 0, Trusted, HumanExplicit, None)]
  {
  }

  /** Earned, offered, accepted, revoked and confirmed once more: eligible again, but its
      offer is spent. */
  lemma {:induction false} SpentOfferStaysSpent(payee: string, a: CategoryId)
    ensures var steps := [ConfirmOf(payee, a, "1"), ConfirmOf(payee, a, "2"), ConfirmOf(payee, a, "3"),
                          Offered("1", 0), Accept("1", 0), Revoke(payee, 0), ConfirmOf(payee, a, "4")];
            var rules := After(EMPTY, steps).rules;
            |rules| == 1 && Eligible(rules[0]) && !Pending(rules[0])
  {
    hide AfterStep, ConfirmOf;
    var steps := [ConfirmOf(payee, a, "1"), ConfirmOf(payee, a, "2"), ConfirmOf(payee, a, "3"),
                  Offered("1", 0), Accept("1", 0), Revoke(payee, 0), ConfirmOf(payee, a, "4")];
    FirstOfA(payee, a);
    RunOneMore(steps, 0);
    SoloConfirmed(After(EMPTY, steps[..1]), payee, a, 1, Confirmed, None, "2");
    RunOneMore(steps, 1);
    SoloConfirmed(After(EMPTY, steps[..2]), payee, a, 2, Confirmed, None, "3");
    RunOneMore(steps, 2);
    SoloOfferedAndBlessed(After(EMPTY, steps[..3]), payee, a, 3);
    RunOneMore(steps, 3);
    RunOneMore(steps, 4);
    SoloRevoked(After(EMPTY, steps[..5]), payee, a, 3, Some(0));
    RunOneMore(steps, 5);
    SoloConfirmed(After(EMPTY, steps[..6]), payee, a, 3, Confirmed, Some(0), "4");
    RunOneMore(steps, 6);
    assert steps[..7] == steps;
  }

  /** Commanded, revoked and confirmed three times: eligible, and offered for the first time. */
  lemma {:induction false} UnspentOfferIsMade(payee: string, a: CategoryId)
    ensures var steps := [CommandOf(payee, a, "1"), Revoke(payee, 0),
                          ConfirmOf(payee, a, "2"), ConfirmOf(payee, a, "3"), ConfirmOf(payee, a, "4")];
            var rules := After(EMPTY, steps).rules;
            |rules| == 1 && Pending(rules[0])
  {
    hide AfterStep, ConfirmOf, CommandOf;
    var steps := [CommandOf(payee, a, "1"), Revoke(payee, 0),
                  ConfirmOf(payee, a, "2"), ConfirmOf(payee, a, "3"), ConfirmOf(payee, a, "4")];
    SoloCommanded(payee, a);
    RunOneMore(steps, 0);
    SoloRevoked(After(EMPTY, steps[..1]), payee, a, 0, None);
    RunOneMore(steps, 1);
    SoloConfirmed(After(EMPTY, steps[..2]), payee, a, 0, Confirmed, None, "2");
    RunOneMore(steps, 2);
    SoloConfirmed(After(EMPTY, steps[..3]), payee, a, 1, Confirmed, None, "3");
    RunOneMore(steps, 3);
    SoloConfirmed(After(EMPTY, steps[..4]), payee, a, 2, Confirmed, None, "4");
    RunOneMore(steps, 4);
    assert steps[..5] == steps;
  }
}
