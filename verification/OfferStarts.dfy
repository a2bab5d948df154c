/** The offers that go out: each mark in the registry follows an attempt to start the offer
    conversation of that rule, and only the first conversation of an id is ever started. */
module OfferStarts {
  import opened Prelude
  import opened Allocations
  import opened Domain
  import opened Learning
  import opened Registry
  import opened Credits
  import opened Reoffers

  /** An attempt to start the conversation; `reached` when the call went through. */
  datatype Attempt = Attempt(id: string, reached: bool)

  /** The conversations started, in order: an id in use is refused. */
  function Started(attempts: seq<Attempt>): seq<string> {
    if attempts == [] then []
    else
      var front, last := Started(attempts[..|attempts| - 1]), attempts[|attempts| - 1];
      if last.reached && last.id !in front then front + [last.id] else front
  }

  /** The ids marked as offered by a run, in order. */
  function OfferedIds(steps: seq<Step>): seq<string> {
    if steps == [] then []
    else OfferedIds(steps[..|steps| - 1])
         + if steps[|steps| - 1].Offered? then [steps[|steps| - 1].id] else []
  }

  function AttemptIds(attempts: seq<Attempt>): seq<string> {
    seq(|attempts|, i requires 0 <= i < |attempts| => attempts[i].id)
  }

  ghost predicate ReachedBefore(attempts: seq<Attempt>, id: string, k: nat)
    requires k <= |attempts|
  {
    exists i :: 0 <= i < k && attempts[i] == Attempt(id, true)
  }

  lemma {:induction false} StartedIffReached(attempts: seq<Attempt>, id: string)
    ensures id in Started(attempts) <==> ReachedBefore(attempts, id, |attempts|)
  {
    if attempts != [] {
      var n := |attempts| - 1;
      var front := attempts[..n];
      StartedIffReached(front, id);
      if ReachedBefore(attempts, id, n) {
        var i :| 0 <= i < n && attempts[i] == Attempt(id, true);
        assert front[i] == Attempt(id, true);
      }
    }
  }

  /** Over every run of attempts a conversation is started for an id at most once, and
      exactly at the first attempt for it that goes through: any later one starts none. */
  lemma {:induction false} StartedOnce(attempts: seq<Attempt>, k: nat)
    requires k < |attempts|
    ensures forall i, j :: 0 <= i < j < |Started(attempts)| ==> Started(attempts)[i] != Started(attempts)[j]
    ensures Started(attempts[..k + 1]) == Started(attempts[..k])
            + if attempts[k].reached && !ReachedBefore(attempts, attempts[k].id, k) then [attempts[k].id] else []
  {
    NoIdTwice(attempts);
    var front := attempts[..k];
    assert attempts[..k + 1][..k] == front;
    StartedIffReached(front, attempts[k].id);
    if ReachedBefore(attempts, attempts[k].id, k) {
      var i :| 0 <= i < k && attempts[i] == Attempt(attempts[k].id, true);
      assert front[i] == Attempt(attempts[k].id, true);
    }
  }

  lemma {:induction false} NoIdTwice(attempts: seq<Attempt>)
    ensures forall i, j :: 0 <= i < j < |Started(attempts)| ==> Started(attempts)[i] != Started(attempts)[j]
  {
    if attempts != [] {
      NoIdTwice(attempts[..|attempts| - 1]);
    }
  }

  lemma {:induction false} OfferedIdsGrow(steps: seq<Step>, more: seq<Step>)
    requires forall i :: 0 <= i < |more| ==> !more[i].Offered?
    ensures OfferedIds(steps + more) == OfferedIds(steps)
  {
    if more == [] {
      assert steps + more == steps;
    } else {
      assert (steps + more)[..|steps + more| - 1] == steps + more[..|more| - 1];
      OfferedIdsGrow(steps, more[..|more| - 1]);
    }
  }

  lemma OneMoreAttempt(steps: seq<Step>, attempts: seq<Attempt>, id: string, reached: bool, now: Instant)
    requires AttemptIds(attempts) == OfferedIds(steps)
    ensures AttemptIds(attempts + [Attempt(id, reached)]) == OfferedIds(steps + [Offered(id, now)])
    ensures Started(attempts + [Attempt(id, reached)])
         == Started(attempts) + if reached && id !in Started(attempts) then [id] else []
  {
    assert (steps + [Offered(id, now)])[..|steps|] == steps;
    assert (attempts + [Attempt(id, reached)])[..|attempts|] == attempts;
  }

  // ---------- a re-earned offer ----------

  /** The owner re-files what rule "1" applied. */
  function CorrectionOf(payee: string, was: CategoryId, category: CategoryId, id: string): Step {
    Learn(FeedRuleLearning(CorrectKind, payee,
                           Some(Decision(ResolvedCategory(category, None), None, true, Human, 0, None)),
                           Some(Decision(ResolvedCategory(was, None), None, true, Agent, 0, Some("1")))), 0, id)
  }

  function Corrected(payee: string, category: CategoryId, hits: nat): Rule {
    Rule("1", RuleMatch(payee, None, None, None), RuleAction(ProposedCategory(category, None), None),
         TrustForHits(hits, K_DEFAULT), hits, Some(0), Some(0), Learned, None)
  }

  lemma {:induction false} SoloCorrected(
      state: RegistryState, payee: string, was: CategoryId, category: CategoryId, hits: nat, id: string)
    requires state.rules == [Solo(payee, was, hits, Trusted, Learned, Some(0))]
    ensures AfterStep(state, CorrectionOf(payee, was, category, id)).rules == [Corrected(payee, category, 0)]
  {
  }

  lemma {:induction false} CorrectedConfirmed(
      state: RegistryState, payee: string, category: CategoryId, hits: nat, id: string)
    requires state.rules == [Corrected(payee, category, hits)]
    ensures AfterStep(state, ConfirmOf(payee, category, id)).rules == [Corrected(payee, category, hits + 1)]
  {
  }

  lemma {:induction false} SoloOffered(state: RegistryState, payee: string, category: CategoryId, hits: nat)
    requires state.rules == [Solo(payee, category, hits, Trusted, Learned, None)]
    ensures AfterStep(state, Offered("1", 0)).rules == [Solo(payee, category, hits, Trusted, Learned, Some(0))]
  {
  }

  function Reearning(payee: string, a: CategoryId, b: CategoryId): seq<Step> {
    [ConfirmOf(payee, a, "1"), ConfirmOf(payee, a, "2"), ConfirmOf(payee, a, "3"), Offered("1", 0),
     CorrectionOf(payee, a, b, "4"), ConfirmOf(payee, b, "5"), ConfirmOf(payee, b, "6"), ConfirmOf(payee, b, "7")]
  }

  /** A correction clears the stamp so that a re-earned eligibility is offered again: the
      rule is pending again, but its id is in use, so the second mark sends nothing. */
  lemma {:induction false} ReearnedIsNotSent(payee: string, a: CategoryId, b: CategoryId, reached: bool)
    ensures var rules := After(EMPTY, Reearning(payee, a, b)).rules;
            |rules| == 1 && Pending(rules[0]) && rules[0].id == "1"
    ensures OfferedIds(Reearning(payee, a, b) + [Offered("1", 0)]) == ["1", "1"]
    ensures Started([Attempt("1", true), Attempt("1", reached)]) == ["1"]
  {
    hide Reearning, After, OfferedIds, Started, Pending;
    ReearnedIsPending(payee, a, b);
    assert Pending(Corrected(payee, b, 3)) by { CorrectedIsPending(payee, b); }
    MarkedTwice(payee, a, b);
    AgainStartsNothing("1", reached);
  }

  lemma CorrectedIsPending(payee: string, b: CategoryId)
    ensures Pending(Corrected(payee, b, 3))
  {
  }

  lemma AgainStartsNothing(id: string, reached: bool)
    ensures Started([Attempt(id, true), Attempt(id, reached)]) == [id]
  {
    var first, both := [Attempt(id, true)], [Attempt(id, true), Attempt(id, reached)];
    assert both[..1] == first && first[..0] == [];
    assert Started(first) == [id];
  }

  lemma {:induction false} ReearnedIsPending(payee: string, a: CategoryId, b: CategoryId)
    ensures After(EMPTY, Reearning(payee, a, b)).rules == [Corrected(payee, b, 3)]
  {
    hide AfterStep, ConfirmOf, CorrectionOf;
    var steps := Reearning(payee, a, b);
    FirstOfA(payee, a);
    RunOneMore(steps, 0);
    SoloConfirmed(After(EMPTY, steps[..1]), payee, a, 1, Confirmed, None, "2");
    RunOneMore(steps, 1);
    SoloConfirmed(After(EMPTY, steps[..2]), payee, a, 2, Confirmed, None, "3");
    RunOneMore(steps, 2);
    SoloOffered(After(EMPTY, steps[..3]), payee, a, 3);
    RunOneMore(steps, 3);
    SoloCorrected(After(EMPTY, steps[..4]), payee, a, b, 3, "4");
    RunOneMore(steps, 4);
    CorrectedConfirmed(After(EMPTY, steps[..5]), payee, b, 0, "5");
    RunOneMore(steps, 5);
    CorrectedConfirmed(After(EMPTY, steps[..6]), payee, b, 1, "6");
    RunOneMore(steps, 6);
    CorrectedConfirmed(After(EMPTY, steps[..7]), payee, b, 2, "7");
    RunOneMore(steps, 7);
    assert steps[..8] == steps;
  }

  lemma {:induction false} MarkedTwice(payee: string, a: CategoryId, b: CategoryId)
    ensures OfferedIds(Reearning(payee, a, b) + [Offered("1", 0)]) == ["1", "1"]
  {
    hide OfferedIds;
    var steps, mark := Reearning(payee, a, b), Offered("1", 0);
    var first, last := steps[..3], steps[4..];
    NoneOffered();
    OfferedIdsGrow([], first);
    OfferedIdsOne([] + first, mark);
    OfferedIdsGrow([] + first + [mark], last);
    assert [] + first + [mark] + last == steps;
    OfferedIdsOne(steps, mark);
  }

  lemma NoneOffered()
    ensures OfferedIds([]) == []
  {
  }

  lemma OfferedIdsOne(steps: seq<Step>, step: Step)
    requires step.Offered?
    ensures OfferedIds(steps + [step]) == OfferedIds(steps) + [step.id]
  {
    assert (steps + [step])[..|steps|] == steps;
  }
}
