/** The registry's durable shell: signals that fold into the state, and the loop that
    sends each pending offer once. */
module RegistryWorkflow {
  import opened Prelude
  import opened Domain
  import opened Learning
  import opened Registry
  import opened OfferStarts

  /** Apart from the stamp, the rule is the same. */
  predicate SameButStamp(a: Rule, b: Rule) {
    a == b.(offeredAt := a.offeredAt)
  }

  ghost predicate OnlyStamped(before: RegistryState, after: RegistryState) {
    && after.audit == before.audit && |after.rules| == |before.rules|
    && forall i :: 0 <= i < |before.rules| ==> SameButStamp(after.rules[i], before.rules[i])
  }

  ghost predicate StampedIffOffered(before: RegistryState, now: RegistryState, offered: seq<string>)
    requires |now.rules| == |before.rules|
  {
    forall i :: 0 <= i < |before.rules| && Pending(before.rules[i]) ==>
      (now.rules[i].offeredAt.Some? <==> before.rules[i].id in offered)
  }

  ghost predicate WerePending(before: RegistryState, offered: seq<string>) {
    forall id :: id in offered ==> exists i :: 0 <= i < |before.rules| && Pending(before.rules[i])
                                              && before.rules[i].id == id
  }

  ghost predicate OldStampsStand(before: RegistryState, now: RegistryState)
    requires |now.rules| == |before.rules|
  {
    forall i :: 0 <= i < |before.rules| && before.rules[i].offeredAt.Some? ==>
      now.rules[i].offeredAt == before.rules[i].offeredAt
  }

  ghost predicate NoneTwice(offered: seq<string>) {
    forall i, j :: 0 <= i < j < |offered| ==> offered[i] != offered[j]
  }

  /** The offers sent so far: each to a rule pending at the start, none twice, and what
      was pending at the start and is no longer was offered. */
  ghost predicate OffersSoFar(before: RegistryState, now: RegistryState, offered: seq<string>)
    requires |now.rules| == |before.rules|
  {
    && NoneTwice(offered) && WerePending(before, offered)
    && StampedIffOffered(before, now, offered) && OldStampsStand(before, now)
  }

  function PendingCount(rules: seq<Rule>): nat {
    |PendingOffers(rules)|
  }

  lemma {:induction false} MarkReducesPending(rules: seq<Rule>, state: RegistryState, id: string, now: Instant)
    requires state.rules == rules && exists r :: r in PendingOffers(rules) && r.id == id
    ensures PendingCount(MarkOffered(state, id, now).rules) < PendingCount(rules)
  {
    var after := MarkOffered(state, id, now).rules;
    hide PendingOffers;
    var k :| 0 <= k < |rules| && Pending(rules[k]) && rules[k].id == id;
    FewerPending(rules, after, k);
  }

  lemma {:induction false} FewerPending(before: seq<Rule>, after: seq<Rule>, k: nat)
    requires |before| == |after| && k < |before| && Pending(before[k]) && !Pending(after[k])
    requires forall i :: 0 <= i < |before| && Pending(after[i]) ==> Pending(before[i])
    ensures PendingCount(after) < PendingCount(before)
  {
    if k > 0 {
      FewerPending(before[1..], after[1..], k - 1);
    } else {
      NoMorePending(before[1..], after[1..]);
    }
  }

  lemma {:induction false} NoMorePending(before: seq<Rule>, after: seq<Rule>)
    requires |before| == |after|
    requires forall i :: 0 <= i < |before| && Pending(after[i]) ==> Pending(before[i])
    ensures PendingCount(after) <= PendingCount(before)
  {
    if before != [] {
      NoMorePending(before[1..], after[1..]);
    }
  }

  /** The run of offer marks for these ids, each at its time. */
  ghost function Marks(offered: seq<string>, clock: nat -> Instant): seq<Step> {
    seq(|offered|, i requires 0 <= i < |offered| => Offered(offered[i], clock(i)))
  }

  /** The attempts to start a conversation for these ids. */
  ghost function Tries(offered: seq<string>, reached: nat -> bool): seq<Attempt> {
    seq(|offered|, i requires 0 <= i < |offered| => Attempt(offered[i], reached(i)))
  }

  lemma MarkedIsRetired(state: RegistryState, id: string, now: Instant)
    ensures forall r :: r in PendingOffers(MarkOffered(state, id, now).rules) ==> r.id != id
  {
  }

  lemma OneMoreStep(steps: seq<Step>, step: Step)
    ensures After(EMPTY, steps + [step]) == AfterStep(After(EMPTY, steps), step)
  {
    assert (steps + [step])[..|steps|] == steps;
  }

  class RuleRegistry {
    var state: RegistryState
    /** Everything the registry ever took in, earlier incarnations included. */
    ghost var history: seq<Step>
    /** Every attempt to start an offer conversation. */
    ghost var attempts: seq<Attempt>
    /** The offer conversations in existence; an id in use is refused. */
    var sent: seq<string>

    ghost predicate Valid()
      reads this
    {
      state == After(EMPTY, history)
    }

    /** Each mark followed one attempt, and what was sent is what the attempts started. */
    ghost predicate Accounted()
      reads this
    {
      AttemptIds(attempts) == OfferedIds(history) && sent == Started(attempts)
    }

    constructor (carried: RegistryState, conversations: seq<string>, ghost past: seq<Step>, ghost tried: seq<Attempt>)
      requires carried == After(EMPTY, past)
      requires AttemptIds(tried) == OfferedIds(past) && conversations == Started(tried)
      ensures Valid() && Accounted() && state == carried && history == past && attempts == tried
    {
      state, sent, history, attempts := carried, conversations, past, tried;
    }

    method Record(feed: FeedRuleLearning, now: Instant, nextId: string)
      requires Valid()
      modifies this`state, this`history
      ensures Valid() && history == old(history) + [Step.Learn(feed, now, nextId)]
    {
      OneMoreStep(history, Step.Learn(feed, now, nextId));
      state := RecordLearning(state, feed, now, nextId);
      history := history + [Step.Learn(feed, now, nextId)];
    }

    method BlessCommand(condition: RuleMatch, action: RuleAction, now: Instant, nextId: string)
      requires Valid()
      modifies this`state, this`history
      ensures Valid() && history == old(history) + [Step.Command(condition, action, now, nextId)]
    {
      OneMoreStep(history, Step.Command(condition, action, now, nextId));
      state := BlessRule(state, ExplicitCommand(condition, action), now, nextId);
      history := history + [Step.Command(condition, action, now, nextId)];
    }

    method BlessExisting(id: string, now: Instant)
      requires Valid()
      modifies this`state, this`history
      ensures Valid() && history == old(history) + [Step.Accept(id, now)]
    {
      OneMoreStep(history, Step.Accept(id, now));
      state := BlessById(state, id, now);
      history := history + [Step.Accept(id, now)];
    }

    method RevokeAutonomy(payee: string, now: Instant)
      requires Valid()
      modifies this`state, this`history
      ensures Valid() && history == old(history) + [Step.Revoke(payee, now)]
    {
      OneMoreStep(history, Step.Revoke(payee, now));
      state := RevokePayee(state, payee, now);
      history := history + [Step.Revoke(payee, now)];
    }

    /** Apply one signal. */
    method Signal(step: Step)
      requires Valid() && !step.Offered?
      modifies this`state, this`history
      ensures Valid() && history == old(history) + [step]
    {
      match step
      case Learn(feed, now, nextId) => Record(feed, now, nextId);
      case Command(condition, action, now, nextId) => BlessCommand(condition, action, now, nextId);
      case Accept(id, now) => BlessExisting(id, now);
      case Revoke(payee, now) => RevokeAutonomy(payee, now);
    }

    /** One turn of the loop: the first pending rule is offered, in a conversation of its own
        unless there was one for its id before; the signals that arrive meanwhile take
        effect; and then the rule is marked, whether or not the offer went through. */
    method OfferNext(arrivals: seq<Step>, reached: bool, now: Instant) returns (id: string)
      requires Valid() && Accounted() && PendingOffers(state.rules) != []
      requires forall i :: 0 <= i < |arrivals| ==> !arrivals[i].Offered?
      modifies this
      ensures Valid() && Accounted() && id == PendingOffers(old(state).rules)[0].id
      ensures history == old(history) + arrivals + [Step.Offered(id, now)]
      ensures attempts == old(attempts) + [Attempt(id, reached)]
      ensures sent == old(sent) + if reached && id !in old(sent) then [id] else []
      ensures forall r :: r in PendingOffers(state.rules) ==> r.id != id
      ensures arrivals == [] ==> state == MarkOffered(old(state), id, now)
    {
      hide PendingOffers, After, RecordLearning, BlessRule, BlessById, RevokePayee, AttemptIds, OfferedIds, Started;
      id := PendingOffers(state.rules)[0].id;
      if reached && id !in sent {
        sent := sent + [id];
      }
      for k := 0 to |arrivals|
        invariant Valid() && history == old(history) + arrivals[..k]
        invariant attempts == old(attempts)
        invariant sent == old(sent) + if reached && id !in old(sent) then [id] else []
      {
        Signal(arrivals[k]);
      }
      assert arrivals[..|arrivals|] == arrivals;
      OfferedIdsGrow(old(history), arrivals);
      OneMoreAttempt(history, attempts, id, reached, now);
      OneMoreStep(history, Step.Offered(id, now));
      MarkedIsRetired(state, id, now);
      state := MarkOffered(state, id, now);
      history, attempts := history + [Step.Offered(id, now)], attempts + [Attempt(id, reached)];
    }

    /** With no signals arriving, the loop offers every pending rule, one at a time, until
        none is left: exactly the ids pending at the start, each once, and nothing but
        their stamps changes. `clock` gives the time of each offer, `reached` whether it
        went through. */
    method DrainOffers(clock: nat -> Instant, reached: nat -> bool) returns (offered: seq<string>)
      requires Valid() && Accounted()
      modifies this
      ensures Valid() && Accounted()
      ensures history == old(history) + Marks(offered, clock) && attempts == old(attempts) + Tries(offered, reached)
      ensures PendingOffers(state.rules) == [] && OnlyStamped(old(state), state)
      ensures forall i, j :: 0 <= i < j < |offered| ==> offered[i] != offered[j]
      ensures forall id :: id in offered <==>
                exists r :: r in PendingOffers(old(state).rules) && r.id == id
    {
      hide PendingOffers, After, OffersSoFar, OnlyStamped, MarkOffered, Marks, Tries, AttemptIds, OfferedIds, Started,
           Eligible;
      offered := [];
      NoMarks(clock, reached);
      NothingOffered(state);
      while PendingOffers(state.rules) != []
        invariant Valid() && Accounted()
        invariant history == old(history) + Marks(offered, clock)
        invariant attempts == old(attempts) + Tries(offered, reached)
        invariant OnlyStamped(old(state), state)
        invariant |old(state).rules| == |state.rules| && OffersSoFar(old(state), state, offered)
        decreases PendingCount(state.rules)
      {
        var rule := PendingOffers(state.rules)[0];
        MarkReducesPending(state.rules, state, rule.id, clock(|offered|));
        OneMoreOffer(old(state), state, offered, rule, clock(|offered|));
        var id := OfferNext([], reached(|offered|), clock(|offered|));
        OneMoreMark(offered, id, clock, reached);
        offered := offered + [id];
      }
      AllOffered(old(state), state, offered);
    }
  }

  lemma NoMarks(clock: nat -> Instant, reached: nat -> bool)
    ensures Marks([], clock) == [] && Tries([], reached) == []
  {
  }

  lemma OneMoreMark(offered: seq<string>, id: string, clock: nat -> Instant, reached: nat -> bool)
    ensures Marks(offered + [id], clock) == Marks(offered, clock) + [Step.Offered(id, clock(|offered|))]
    ensures Tries(offered + [id], reached) == Tries(offered, reached) + [Attempt(id, reached(|offered|))]
  {
  }

  lemma NothingOffered(state: RegistryState)
    ensures OnlyStamped(state, state) && OffersSoFar(state, state, [])
  {
  }

  lemma {:induction false} StillOnlyStamped(before: RegistryState, now: RegistryState, id: string, at: Instant)
    requires OnlyStamped(before, now)
    ensures OnlyStamped(before, MarkOffered(now, id, at))
  {
    var after := MarkOffered(now, id, at);
    forall i | 0 <= i < |before.rules| ensures SameButStamp(after.rules[i], before.rules[i]) {
      assert SameButStamp(now.rules[i], before.rules[i]);
    }
  }

  /** Beside the stamp a rule pending now was pending at the start. */
  lemma {:induction false} PendingThroughout(
      before: RegistryState, now: RegistryState, offered: seq<string>, rule: Rule)
    returns (k: nat)
    requires OnlyStamped(before, now) && OffersSoFar(before, now, offered)
    requires rule in PendingOffers(now.rules)
    ensures k < |before.rules| && Pending(before.rules[k]) && before.rules[k].id == rule.id && now.rules[k] == rule
    ensures rule.id !in offered
  {
    k :| 0 <= k < |now.rules| && now.rules[k] == rule;
    assert SameButStamp(now.rules[k], before.rules[k]);
    assert before.rules[k].offeredAt.None?;
  }

  lemma {:induction false} OneMoreStamped(
      before: RegistryState, now: RegistryState, offered: seq<string>, id: string, at: Instant)
    requires OnlyStamped(before, now) && StampedIffOffered(before, now, offered)
    ensures |MarkOffered(now, id, at).rules| == |before.rules|
    ensures StampedIffOffered(before, MarkOffered(now, id, at), offered + [id])
  {
    hide Pending;
    var after := MarkOffered(now, id, at);
    forall i | 0 <= i < |before.rules| && Pending(before.rules[i])
      ensures after.rules[i].offeredAt.Some? <==> before.rules[i].id in offered + [id]
    {
      assert SameButStamp(now.rules[i], before.rules[i]);
    }
  }

  lemma OldStampsStill(before: RegistryState, now: RegistryState, id: string, at: Instant)
    requires |now.rules| == |before.rules| && OldStampsStand(before, now)
    ensures OldStampsStand(before, MarkOffered(now, id, at))
  {
  }

  lemma {:induction false} OneMoreWasPending(before: RegistryState, offered: seq<string>, k: nat)
    requires WerePending(before, offered) && k < |before.rules| && Pending(before.rules[k])
    ensures WerePending(before, offered + [before.rules[k].id])
  {
    hide Pending;
    var more := offered + [before.rules[k].id];
    forall id | id in more ensures exists i :: 0 <= i < |before.rules| && Pending(before.rules[i])
                                               && before.rules[i].id == id
    {
      assert id in offered || id == before.rules[k].id;
    }
  }

  lemma {:induction false} OneMoreOffer(
      before: RegistryState, now: RegistryState, offered: seq<string>, rule: Rule, at: Instant)
    requires OnlyStamped(before, now) && OffersSoFar(before, now, offered)
    requires rule in PendingOffers(now.rules)
    ensures OnlyStamped(before, MarkOffered(now, rule.id, at))
    ensures |MarkOffered(now, rule.id, at).rules| == |before.rules|
    ensures OffersSoFar(before, MarkOffered(now, rule.id, at), offered + [rule.id])
  {
    var k := PendingThroughout(before, now, offered, rule);
    hide Pending, PendingOffers, WerePending, StampedIffOffered, OldStampsStand, MarkOffered, SameButStamp;
    StillOnlyStamped(before, now, rule.id, at);
    OneMoreStamped(before, now, offered, rule.id, at);
    OldStampsStill(before, now, rule.id, at);
    OneMoreWasPending(before, offered, k);
  }

  /** With nothing left pending, the ids offered are those pending at the start. */
  lemma {:induction false} AllOffered(before: RegistryState, now: RegistryState, offered: seq<string>)
    requires OnlyStamped(before, now) && OffersSoFar(before, now, offered) && PendingOffers(now.rules) == []
    ensures forall id :: id in offered <==> exists r :: r in PendingOffers(before.rules) && r.id == id
    ensures forall i, j :: 0 <= i < j < |offered| ==> offered[i] != offered[j]
  {
    hide PendingOffers;
    forall id | id in offered ensures exists r :: r in PendingOffers(before.rules) && r.id == id {
      var i :| 0 <= i < |before.rules| && Pending(before.rules[i]) && before.rules[i].id == id;
      assert before.rules[i] in PendingOffers(before.rules);
    }
    forall r | r in PendingOffers(before.rules) ensures r.id in offered {
      var i :| 0 <= i < |before.rules| && before.rules[i] == r;
      StampedByNow(before, now, i);
    }
  }

  lemma {:induction false} StampedByNow(before: RegistryState, now: RegistryState, i: nat)
    requires OnlyStamped(before, now) && PendingOffers(now.rules) == []
    requires i < |before.rules| && Pending(before.rules[i])
    ensures now.rules[i].offeredAt.Some?
  {
    hide PendingOffers;
    assert SameButStamp(now.rules[i], before.rules[i]);
    assert now.rules[i] in now.rules && now.rules[i] !in PendingOffers(now.rules);
  }
}
