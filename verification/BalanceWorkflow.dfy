/** The coordinated balancer: one offer, one conversation, one guarded apply. The
    model's reading of each reply, the read-back of each write and the number of
    retries of each write are arbitrary. */
module BalanceWorkflow {
  import opened Prelude
  import opened Coverage
  import opened Guards
  import opened Reallocation
  import opened Floor

  datatype Reading = ReadApply | ReadDecline | ReadClarify(question: string)

  datatype Outcome =
    | CouldNotCover
    | TimedOut
    | Declined
    | StalePeriod
    | OverCap
    | Rejected(reason: OptionRejection)
    | NoBaseline
    | VerifyFailed
    | Applied

  /** What the workflow reads when it applies: the current period, and the funds and
      slack the guard checks against. */
  datatype Snapshot = Snapshot(period: string, available: Funds, slack: Funds)

  /** The model's reading of each reply: the text does not determine it, two equal replies
      may be read differently. */
  type Reader = (nat, string) -> Reading

  /** The first reply that is not a request to clarify, if one comes; `k` were read before. */
  function Decisive(responses: seq<string>, read: Reader, k: nat): Option<Reading> {
    if responses == [] then None
    else if read(k, responses[0]).ReadClarify? then Decisive(responses[1..], read, k + 1)
    else Some(read(k, responses[0]))
  }

  function Clarified(responses: seq<string>, read: Reader, k: nat): nat {
    if responses == [] || !read(k, responses[0]).ReadClarify? then 0
    else 1 + Clarified(responses[1..], read, k + 1)
  }

  /** Replies are read in order, and the first that decides is the one that counts: it comes
      after exactly as many requests to clarify as were answered. */
  lemma {:induction false} FirstDecides(responses: seq<string>, read: Reader, k: nat)
    ensures var n := Clarified(responses, read, k);
            && n <= |responses|
            && (forall i :: 0 <= i < n ==> read(k + i, responses[i]).ReadClarify?)
            && (if n == |responses| then Decisive(responses, read, k).None?
                else !read(k + n, responses[n]).ReadClarify?
                     && Decisive(responses, read, k) == Some(read(k + n, responses[n])))
  {
    if responses != [] && read(k, responses[0]).ReadClarify? {
      FirstDecides(responses[1..], read, k + 1);
      var n := Clarified(responses[1..], read, k + 1);
      forall i | 0 <= i < n + 1 ensures read(k + i, responses[i]).ReadClarify? {
        assert i > 0 ==> responses[1..][i - 1] == responses[i] && k + 1 + (i - 1) == k + i;
      }
    }
  }

  /** Every gate between an approved offer and a write. */
  ghost predicate MayWrite(moves: seq<BudgetMove>, period: string, now: Snapshot, budget: Funds, ceiling: Money) {
    && now.period == period
    && |moves| <= MOVES_PER_DAY_CAP
    && Applicable(moves, now.available, Some(now.slack), ceiling)
    && TargetsOf(moves, budget).Some?
  }

  /** The limits the workflow checks inline are the budget-move floor's: taken one by one,
      each counting as applied before the next, the moves it may write pass that floor,
      and one move more than the daily cap would not. */
  lemma {:induction false} WrittenMovesPassFloor(
      moves: seq<BudgetMove>, period: string, now: Snapshot, budget: Funds, k: nat, thisRun: nat)
    requires MayWrite(moves, period, now, budget, PER_MOVE_CEILING) && k < |moves|
    ensures CheckBudgetMoveFloor(moves[k].amount, Counters(thisRun, k), CAUTIOUS_FLOOR).Allow?
    ensures CheckBudgetMoveFloor(moves[k].amount, Counters(thisRun, MOVES_PER_DAY_CAP), CAUTIOUS_FLOOR).TripBreaker?
  {
    assert moves[k] in moves;
  }

  class CoordinatedBalance {
    /** Replies in arrival order; those that come within the patience window. */
    var responses: seq<string>
    var clarifications: nat
    /** The budget as this run changes it. */
    var budget: Funds

    constructor (budget: Funds)
      ensures responses == [] && clarifications == 0 && this.budget == budget
    {
      responses, clarifications := [], 0;
      this.budget := budget;
    }

    method SubmitResponse(message: string)
      modifies this`responses
      ensures responses == old(responses) + [message]
    {
      responses := responses + [message];
    }

    /** Wait for a decisive reply, answering clarifications on the way. The budget
        changes only after an apply reply whose moves pass every gate, and then it
        becomes the baseline with the targets written over it. */
    method Run(
        moves: seq<BudgetMove>, period: string, now: Snapshot, ceiling: Money,
        read: Reader, readBack: CategoryId -> bool, retries: CategoryId -> nat)
      returns (outcome: Outcome)
      modifies this
      ensures outcome.Applied? || outcome.VerifyFailed? <==>
              && moves != []
              && Decisive(old(responses), read, 0) == Some(ReadApply)
              && MayWrite(moves, period, now, old(budget), ceiling)
      ensures budget == if outcome.Applied? || outcome.VerifyFailed?
                        then old(budget) + TargetsOf(moves, old(budget)).value
                        else old(budget)
      ensures outcome.Applied? ==> forall c :: c in Changed(moves) ==> readBack(c)
      ensures outcome.VerifyFailed? ==> exists c :: c in Changed(moves) && !readBack(c)
      ensures outcome.CouldNotCover? <==> moves == []
      ensures outcome.Declined? <==> moves != [] && Decisive(old(responses), read, 0) == Some(ReadDecline)
      ensures outcome.TimedOut? <==> moves != [] && Decisive(old(responses), read, 0).None?
      ensures outcome.TimedOut? ==> responses == []
      ensures moves != [] ==> clarifications == old(clarifications) + Clarified(old(responses), read, 0)
    {
      if moves == [] {
        return CouldNotCover;
      }
      var k := 0;
      while responses != []
        invariant budget == old(budget)
        invariant Decisive(responses, read, k) == Decisive(old(responses), read, 0)
        invariant clarifications + Clarified(responses, read, k)
               == old(clarifications) + Clarified(old(responses), read, 0)
        decreases |responses|
      {
        var message := responses[0];
        responses := responses[1..];
        match read(k, message)
        case ReadDecline =>
          return Declined;
        case ReadApply =>
          outcome := Apply(moves, period, now, ceiling, readBack, retries);
          return;
        case ReadClarify(_) =>
          clarifications, k := clarifications + 1, k + 1;
      }
      return TimedOut;
    }

    method Apply(
        moves: seq<BudgetMove>, period: string, now: Snapshot, ceiling: Money,
        readBack: CategoryId -> bool, retries: CategoryId -> nat)
      returns (outcome: Outcome)
      requires moves != []
      modifies this`budget
      ensures outcome.Applied? || outcome.VerifyFailed? <==> MayWrite(moves, period, now, old(budget), ceiling)
      ensures !outcome.CouldNotCover? && !outcome.TimedOut? && !outcome.Declined?
      ensures outcome.StalePeriod? <==> now.period != period
      ensures outcome.OverCap? <==> now.period == period && |moves| > 10
      ensures outcome.Rejected? ==>
                CheckVerdict(moves, now.available, Some(now.slack), ceiling) == Some(outcome.reason)
      ensures budget == if outcome.Applied? || outcome.VerifyFailed?
                        then old(budget) + TargetsOf(moves, old(budget)).value
                        else old(budget)
      ensures outcome.Applied? ==> forall c :: c in Changed(moves) ==> readBack(c)
      ensures outcome.VerifyFailed? ==> exists c :: c in Changed(moves) && !readBack(c)
    {
      if now.period != period {
        return StalePeriod;
      }
      if |moves| > MOVES_PER_DAY_CAP {
        return OverCap;
      }
      var rejection := CheckMoves(moves, now.available, Some(now.slack), ceiling);
      CheckAcceptsIff(moves, now.available, Some(now.slack), ceiling);
      if rejection.Some? {
        return Rejected(rejection.value);
      }
      var targets := MoveTargets(moves, budget);
      if targets.None? {
        return NoBaseline;
      }
      var verified := WriteAll(targets.value, readBack, retries);
      return if verified then Applied else VerifyFailed;
    }

    /** One absolute write, repeated as often as it is retried. */
    method Write(category: CategoryId, target: Money, retries: nat)
      modifies this`budget
      ensures budget == old(budget)[category := target]
    {
      budget := budget[category := target];
      for attempt := 0 to retries
        invariant budget == old(budget)[category := target]
      {
        budget := budget[category := target];
      }
    }

    /** Write every target, in any order, each as often as it is retried. */
    method WriteAll(targets: Funds, readBack: CategoryId -> bool, retries: CategoryId -> nat)
      returns (verified: bool)
      modifies this`budget
      ensures budget == old(budget) + targets
      ensures verified <==> forall c :: c in targets ==> readBack(c)
    {
      verified := true;
      var pending := targets.Keys;
      while pending != {}
        invariant pending <= targets.Keys
        invariant budget.Keys == old(budget).Keys + (targets.Keys - pending)
        invariant forall c :: c in budget ==>
                    budget[c] == if c in targets && c !in pending then targets[c] else old(budget)[c]
        invariant verified <==> forall c :: c in targets && c !in pending ==> readBack(c)
        decreases |pending|
      {
        var category :| category in pending;
        Write(category, targets[category], retries(category));
        verified := verified && readBack(category);
        pending := pending - {category};
      }
    }
  }
}
