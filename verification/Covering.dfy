/** What covering does to the categories it draws on, as the monitor will see them: the
    balancer's slack knows nothing of scheduled outflows, which the monitor counts. */
module Covering {
  import opened Prelude
  import opened Overspend
  import opened Coverage
  import opened Guards
  import opened Donors
  import Floor

  /** The balancer's read of the budget: no category carries its schedule. */
  ghost predicate Unscheduled(spends: seq<CategorySpend>) {
    forall i :: 0 <= i < |spends| ==> spends[i].scheduledRemaining == 0
  }

  /** The monitor's read of the same category: its outflow due is merged in. */
  function Scheduled(spend: CategorySpend, due: Funds): CategorySpend {
    spend.(scheduledRemaining := Lookup(due, spend.category, 0))
  }

  /** A category after the moves land: what it is paid less what is pulled from it,
      on its budget and on its balance alike. */
  function Moved(spend: CategorySpend, moves: seq<BudgetMove>): CategorySpend {
    var change := PaidTo(moves, spend.category) - PulledFrom(moves, spend.category);
    spend.(budgeted := spend.budgeted + change, balance := spend.balance + change)
  }

  /** The apply-time guard accepts the moves on the balancer's read. */
  ghost predicate Accepted(
      moves: seq<BudgetMove>, spends: seq<CategorySpend>, readyToAssign: Money, clock: MonthClock, ceiling: Money)
    requires clock.Valid()
  {
    CheckVerdict(moves, AvailableOf(spends, readyToAssign), Some(SlackOf(spends, readyToAssign, clock)), ceiling).None?
  }

  ghost predicate DrawnOn(moves: seq<BudgetMove>, c: CategoryId) {
    exists m :: m in moves && m.source == c
  }

  // ---------- the figures ----------

  lemma SameProjection(a: CategorySpend, b: CategorySpend, clock: MonthClock)
    requires clock.Valid() && a.budgeted == b.budgeted && a.activity == b.activity
    requires a.scheduledRemaining == b.scheduledRemaining
    ensures ProjectSpend(a, clock) == ProjectSpend(b, clock)
  {
  }

  /** A scheduled outflow widens the gap by exactly its size. */
  lemma {:induction false} ScheduleAdds(spend: CategorySpend, due: Funds, clock: MonthClock)
    requires clock.Valid() && spend.scheduledRemaining == 0
    ensures Gap(Scheduled(spend, due), clock) == Gap(spend, clock) + Lookup(due, spend.category, 0)
  {
    ProjectionBounds(spend, clock);
    ProjectionBounds(Scheduled(spend, due), clock);
  }

  function Lowered(spend: CategorySpend, change: Money): CategorySpend {
    spend.(budgeted := spend.budgeted - change, balance := spend.balance - change)
  }

  /** How the gap answers to a change of `paid - pulled`: never by more than what was
      pulled, and never above the gap of pulling everything a donor could spare. */
  lemma {:induction false} GapAfter(spend: CategorySpend, paid: nat, pulled: nat, most: nat, clock: MonthClock)
    requires clock.Valid() && pulled <= most
    ensures Gap(Lowered(spend, pulled - paid), clock) <= Gap(spend, clock) + pulled
    ensures Gap(Lowered(spend, pulled - paid), clock) <= Gap(Lowered(spend, most), clock)
  {
    hide ProjectSpend;
    var emptied := Lowered(spend, most);
    RaiseNeverWidens(emptied, most - pulled, clock);
    RaiseNeverWidens(Lowered(spend, pulled), paid, clock);
    LowerWidensLittle(spend, pulled, clock);
    assert Lowered(emptied, pulled - most) == Lowered(spend, pulled);
    assert Lowered(Lowered(spend, pulled), 0 - paid) == Lowered(spend, pulled - paid);
  }

  lemma {:induction false} RaiseNeverWidens(spend: CategorySpend, extra: nat, clock: MonthClock)
    requires clock.Valid()
    ensures Gap(Lowered(spend, 0 - extra), clock) <= Gap(spend, clock)
  {
    ProjectionNonExpansive(spend, extra, clock);
    SameProjection(Lowered(spend, 0 - extra), spend.(budgeted := spend.budgeted + extra), clock);
  }

  lemma {:induction false} LowerWidensLittle(spend: CategorySpend, less: nat, clock: MonthClock)
    requires clock.Valid()
    ensures Gap(Lowered(spend, less), clock) <= Gap(spend, clock) + less
  {
    var lowered := Lowered(spend, less);
    ProjectionNonExpansive(lowered, less, clock);
    SameProjection(spend, lowered.(budgeted := lowered.budgeted + less), clock);
  }

  /** What an accepted list of moves does to one category: it is paid no less than nothing,
      and pulled no further than its balance and its slack. */
  lemma {:induction false} AcceptedPull(
      moves: seq<BudgetMove>, spends: seq<CategorySpend>, readyToAssign: Money, clock: MonthClock,
      ceiling: Money, i: nat)
    requires clock.Valid() && DistinctSpends(spends) && i < |spends|
    requires Accepted(moves, spends, readyToAssign, clock, ceiling)
    ensures var c, pulled := spends[i].category, PulledFrom(moves, spends[i].category);
            && PaidTo(moves, c) >= 0
            && if DrawnOn(moves, c) then 0 < pulled <= spends[i].balance && pulled <= DonorSlack(spends[i], clock).0
               else pulled == 0
  {
    hide CheckVerdict, AvailableOf, SlackOf, SlackLimit, PaidTo, PulledFrom, DonorSlack;
    var c := spends[i].category;
    CheckAcceptsIff(moves, AvailableOf(spends, readyToAssign), Some(SlackOf(spends, readyToAssign, clock)), ceiling);
    StateOf(spends, readyToAssign, clock, i);
    PaidNonNegative(moves, c);
    if m :| m in moves && m.source == c {
      PulledAtLeast(moves, m);
    } else {
      NotASource(moves, c);
    }
  }

  // ---------- what the monitor finds afterwards ----------

  /** After any moves the guard accepts, the monitor finds no more need in a category that
      was not drawn on; in a donor it finds at most the outflow scheduled for it, never an
      overspent balance, and nothing to flag when that outflow is within the threshold. */
  lemma {:induction false} CoveringNeverOverspends(
      moves: seq<BudgetMove>, spends: seq<CategorySpend>, readyToAssign: Money, due: Funds, clock: MonthClock,
      ceiling: Money, threshold: Money, i: nat)
    requires clock.Valid() && DistinctSpends(spends) && Unscheduled(spends) && i < |spends|
    requires Accepted(moves, spends, readyToAssign, clock, ceiling)
    ensures var before := Assess(Scheduled(spends[i], due), clock, threshold);
            var after := Assess(Scheduled(Moved(spends[i], moves), due), clock, threshold);
            var outflow := Lookup(due, spends[i].category, 0);
            if DrawnOn(moves, spends[i].category) then
              && NeedOf(after).shortfall <= Max(0, outflow) && after.verdict != AlreadyOver
              && (outflow <= threshold ==> after.verdict == OK)
            else NeedOf(after).shortfall <= NeedOf(before).shortfall
  {
    hide Accepted, PaidTo, PulledFrom, ProjectSpend;
    var spend := spends[i];
    var paid, pulled := PaidTo(moves, spend.category), PulledFrom(moves, spend.category);
    AcceptedPull(moves, spends, readyToAssign, clock, ceiling, i);
    GapAfter(spend, paid, pulled, pulled, clock);
    assert Moved(spend, moves) == Lowered(spend, pulled - paid);
    ScheduleAdds(spend, due, clock);
    ScheduleAdds(Moved(spend, moves), due, clock);
  }

  /** How far a category's projection falls when its budget is lowered by all its slack. */
  function Relief(spend: CategorySpend, clock: MonthClock): Money
    requires clock.Valid()
  {
    ProjectSpend(spend, clock) - ProjectSpend(Lowered(spend, DonorSlack(spend, clock).0), clock)
  }

  /** If the moves are accepted and draw on the category, the monitor finds it on track. */
  ghost predicate KeepsOnTrack(
      moves: seq<BudgetMove>, spends: seq<CategorySpend>, readyToAssign: Money, due: Funds, clock: MonthClock,
      ceiling: Money, threshold: Money, i: nat)
    requires clock.Valid() && i < |spends|
  {
    Accepted(moves, spends, readyToAssign, clock, ceiling) && DrawnOn(moves, spends[i].category) ==>
      Assess(Scheduled(Moved(spends[i], moves), due), clock, threshold).verdict == OK
  }

  /** No accepted moves whatever push a category off track if and only if it has no slack
      to give, or its scheduled outflow exceeds the threshold by no more than its relief. */
  lemma {:induction false} DonorStaysOnTrackIff(
      spends: seq<CategorySpend>, readyToAssign: Money, due: Funds, clock: MonthClock,
      ceiling: Money, threshold: Money, i: nat)
    requires clock.Valid() && DistinctSpends(spends) && Unscheduled(spends) && i < |spends| && ceiling > 0
    ensures (forall moves :: KeepsOnTrack(moves, spends, readyToAssign, due, clock, ceiling, threshold, i))
            <==> DonorSlack(spends[i], clock).0 == 0
                 || Lookup(due, spends[i].category, 0) <= threshold + Relief(spends[i], clock)
  {
    hide Accepted, KeepsOnTrack, Relief, ProjectSpend;
    if DonorSlack(spends[i], clock).0 == 0
       || Lookup(due, spends[i].category, 0) <= threshold + Relief(spends[i], clock) {
      forall moves ensures KeepsOnTrack(moves, spends, readyToAssign, due, clock, ceiling, threshold, i) {
        WithinRelief(moves, spends, readyToAssign, due, clock, ceiling, threshold, i);
      }
    } else {
      var c := spends[i].category;
      BeyondRelief(spends, readyToAssign, due, clock, ceiling, threshold, i);
      assert !KeepsOnTrack(Chunks(c, c + "*", DonorSlack(spends[i], clock).0, ceiling),
                           spends, readyToAssign, due, clock, ceiling, threshold, i);
    }
  }

  lemma {:induction false} WithinRelief(
      moves: seq<BudgetMove>, spends: seq<CategorySpend>, readyToAssign: Money, due: Funds, clock: MonthClock,
      ceiling: Money, threshold: Money, i: nat)
    requires clock.Valid() && DistinctSpends(spends) && Unscheduled(spends) && i < |spends|
    requires DonorSlack(spends[i], clock).0 == 0
             || Lookup(due, spends[i].category, 0) <= threshold + Relief(spends[i], clock)
    ensures KeepsOnTrack(moves, spends, readyToAssign, due, clock, ceiling, threshold, i)
  {
    hide Accepted, PaidTo, PulledFrom, ProjectSpend, DrawnOn;
    var spend := spends[i];
    var paid, pulled := PaidTo(moves, spend.category), PulledFrom(moves, spend.category);
    if Accepted(moves, spends, readyToAssign, clock, ceiling) && DrawnOn(moves, spend.category) {
      AcceptedPull(moves, spends, readyToAssign, clock, ceiling, i);
      GapAfter(spend, paid, pulled, DonorSlack(spend, clock).0, clock);
      assert Moved(spend, moves) == Lowered(spend, pulled - paid);
      ScheduleAdds(Moved(spend, moves), due, clock);
    }
  }

  /** Beyond the relief, moving all the slack away is accepted and pushes it off track. */
  lemma {:induction false} BeyondRelief(
      spends: seq<CategorySpend>, readyToAssign: Money, due: Funds, clock: MonthClock,
      ceiling: Money, threshold: Money, i: nat)
    requires clock.Valid() && DistinctSpends(spends) && Unscheduled(spends) && i < |spends| && ceiling > 0
    requires DonorSlack(spends[i], clock).0 > 0
    requires Lookup(due, spends[i].category, 0) > threshold + Relief(spends[i], clock)
    ensures var c := spends[i].category;
            !KeepsOnTrack(Chunks(c, c + "*", DonorSlack(spends[i], clock).0, ceiling),
                          spends, readyToAssign, due, clock, ceiling, threshold, i)
  {
    hide PaidTo, PulledFrom, ProjectSpend, Accepted;
    var spend, c, all := spends[i], spends[i].category, DonorSlack(spends[i], clock).0;
    var moves := Chunks(c, c + "*", all, ceiling);
    DrainAccepted(spends, readyToAssign, clock, ceiling, i);
    ChunkFacts(c, c + "*", all, ceiling, c);
    assert Moved(spend, moves) == Lowered(spend, all);
    ScheduleAdds(Moved(spend, moves), due, clock);
    assert DrawnOn(moves, c) by { assert moves[0] in moves; }
  }

  lemma {:induction false} DrainAccepted(
      spends: seq<CategorySpend>, readyToAssign: Money, clock: MonthClock, ceiling: Money, i: nat)
    requires clock.Valid() && DistinctSpends(spends) && Unscheduled(spends) && i < |spends| && ceiling > 0
    requires DonorSlack(spends[i], clock).0 > 0
    ensures var c := spends[i].category;
            Accepted(Chunks(c, c + "*", DonorSlack(spends[i], clock).0, ceiling), spends, readyToAssign, clock, ceiling)
  {
    hide CheckVerdict, AvailableOf, SlackOf, SlackLimit, PaidTo, PulledFrom;
    var c, all := spends[i].category, DonorSlack(spends[i], clock).0;
    var moves := Chunks(c, c + "*", all, ceiling);
    ChunkFacts(c, c + "*", all, ceiling, c);
    StateOf(spends, readyToAssign, clock, i);
    ProjectionBounds(spends[i], clock);
    CheckAcceptsIff(moves, AvailableOf(spends, readyToAssign), Some(SlackOf(spends, readyToAssign, clock)), ceiling);
  }

  /** A category spent through its budget gets no relief: it is safe to draw on exactly
      when its scheduled outflow is within the threshold. */
  lemma {:induction false} SpentThroughStaysIff(
      spends: seq<CategorySpend>, readyToAssign: Money, due: Funds, clock: MonthClock,
      ceiling: Money, threshold: Money, i: nat)
    requires clock.Valid() && DistinctSpends(spends) && Unscheduled(spends) && i < |spends| && ceiling > 0
    requires spends[i].budgeted <= SpentMagnitude(spends[i]) && DonorSlack(spends[i], clock).0 > 0
    ensures (forall moves :: KeepsOnTrack(moves, spends, readyToAssign, due, clock, ceiling, threshold, i))
            <==> Lookup(due, spends[i].category, 0) <= threshold
  {
    hide KeepsOnTrack;
    DonorStaysOnTrackIff(spends, readyToAssign, due, clock, ceiling, threshold, i);
    assert Relief(spends[i], clock) == 0;
  }

  /** A category with nothing budgeted or spent, a balance, and an outflow due later. */
  function PutBy(c: CategoryId, balance: Money, outflow: Money): CategorySpend {
    CategorySpend(c, c, 0, 0, balance, outflow)
  }

  lemma BlendOfNothing(clock: MonthClock)
    requires clock.Valid()
    ensures Blend(0, 0, clock) == 0
  {
    hide Blend;
    BlendBounds(0, 0, clock);
    BlendAtLeastSpent(0, 0, clock);
  }

  lemma PutByFigures(c: CategoryId, balance: Money, outflow: nat, clock: MonthClock)
    requires clock.Valid()
    ensures Gap(PutBy(c, balance, outflow), clock) == outflow - balance
    ensures DonorSlack(PutBy(c, balance, outflow), clock).0 == Max(0, balance - outflow)
    ensures Gap(Lowered(PutBy(c, balance, outflow), Max(0, balance)), clock) == outflow - Min(0, balance)
  {
    hide Blend;
    ProjectionBounds(PutBy(c, balance, outflow), clock);
    ProjectionBounds(Lowered(PutBy(c, balance, outflow), Max(0, balance)), clock);
    BlendOfNothing(clock);
  }

  lemma OneMove(m: BudgetMove)
    requires m.source != m.destination
    ensures PulledFrom([m], m.source) == m.amount && PaidTo([m], m.source) == 0
  {
    assert [m][..0] == [];
  }

  /** The two reads do part: a category with its whole balance put by for an outflow due
      later this month is on track for the monitor, so not excluded as needy, yet offers
      that balance as slack; the guard lets all of it go, and the monitor then flags the
      category for the whole outflow. */
  lemma {:induction false} ScheduledDonorTurnsOver(
      c: CategoryId, destination: CategoryId, outflow: Money, clock: MonthClock, threshold: Money)
    requires clock.Valid() && c != READY_TO_ASSIGN && c != destination
    requires 0 <= threshold < outflow <= Floor.PER_MOVE_CEILING
    ensures var spend, due: Funds := PutBy(c, outflow, 0), map[c := outflow];
            var moves := [BudgetMove(c, destination, outflow)];
            var after := Assess(Scheduled(Moved(spend, moves), due), clock, threshold);
            && Assess(Scheduled(spend, due), clock, threshold).verdict == OK
            && Accepted(moves, [spend], 0, clock, Floor.PER_MOVE_CEILING)
            && after.verdict == TrendingOver && NeedOf(after).shortfall == outflow
  {
    hide ProjectSpend, PulledFrom, PaidTo, Accepted;
    var spend, due: Funds := PutBy(c, outflow, 0), map[c := outflow];
    var move := BudgetMove(c, destination, outflow);
    PutByFigures(c, outflow, outflow, clock);
    PutByAccepted(c, destination, outflow, clock);
    OneMove(move);
    assert Scheduled(spend, due) == PutBy(c, outflow, outflow);
    assert Scheduled(Moved(spend, [move]), due) == Lowered(PutBy(c, outflow, outflow), outflow);
  }

  lemma {:induction false} PutByAccepted(
      c: CategoryId, destination: CategoryId, amount: Money, clock: MonthClock)
    requires clock.Valid() && c != READY_TO_ASSIGN && c != destination && 0 < amount <= Floor.PER_MOVE_CEILING
    ensures Accepted([BudgetMove(c, destination, amount)], [PutBy(c, amount, 0)], 0, clock, Floor.PER_MOVE_CEILING)
  {
    hide CheckVerdict, AvailableOf, SlackOf, SlackLimit, DonorSlack;
    var moves, spends := [BudgetMove(c, destination, amount)], [PutBy(c, amount, 0)];
    OneMove(moves[0]);
    PutByFigures(c, amount, 0, clock);
    StateOf(spends, 0, clock, 0);
    CheckAcceptsIff(moves, AvailableOf(spends, 0), Some(SlackOf(spends, 0, clock)), Floor.PER_MOVE_CEILING);
  }

  // ---------- the plan on the balancer's read ----------

  /** On every budget as the balancer reads it, every plan passes the guard. */
  lemma {:induction false} EveryReadPasses(
      needs: seq<Need>, spends: seq<CategorySpend>, readyToAssign: Money, exclude: set<CategoryId>,
      clock: MonthClock, ceiling: Money)
    requires clock.Valid() && DistinctSpends(spends) && Unscheduled(spends)
    requires Plan(needs, DonorPool(spends, readyToAssign, exclude, clock), ceiling).moves != []
    ensures Accepted(Plan(needs, DonorPool(spends, readyToAssign, exclude, clock), ceiling).moves,
                     spends, readyToAssign, clock, ceiling)
  {
    hide Plan, DonorPool, CheckVerdict;
    NothingDueBack(spends, exclude, clock);
    PlanPassesCheck(needs, spends, readyToAssign, exclude, clock, ceiling);
  }

  /** So carrying out the coordinated plan leaves every donor whose scheduled outflow is
      within the threshold on track, and deepens no need. */
  lemma {:induction false} PlanKeepsDonors(
      needs: seq<Need>, spends: seq<CategorySpend>, readyToAssign: Money, exclude: set<CategoryId>, due: Funds,
      clock: MonthClock, ceiling: Money, threshold: Money, i: nat)
    requires clock.Valid() && DistinctSpends(spends) && Unscheduled(spends) && i < |spends|
    requires Plan(needs, DonorPool(spends, readyToAssign, exclude, clock), ceiling).moves != []
    requires Lookup(due, spends[i].category, 0) <= threshold
    ensures var moves := Plan(needs, DonorPool(spends, readyToAssign, exclude, clock), ceiling).moves;
            var after := Assess(Scheduled(Moved(spends[i], moves), due), clock, threshold);
            if DrawnOn(moves, spends[i].category) then after.verdict == OK
            else NeedOf(after).shortfall
                 <= NeedOf(Assess(Scheduled(spends[i], due), clock, threshold)).shortfall
  {
    hide Plan, DonorPool, Accepted;
    EveryReadPasses(needs, spends, readyToAssign, exclude, clock, ceiling);
    CoveringNeverOverspends(Plan(needs, DonorPool(spends, readyToAssign, exclude, clock), ceiling).moves,
                            spends, readyToAssign, due, clock, ceiling, threshold, i);
  }

  // ---------- sums over accepted moves ----------

  lemma {:induction false} PaidNonNegative(moves: seq<BudgetMove>, c: CategoryId)
    requires forall n :: n in moves ==> 0 < n.amount
    ensures PaidTo(moves, c) >= 0
  {
    if moves != [] {
      assert moves[|moves| - 1] in moves;
      PaidNonNegative(moves[..|moves| - 1], c);
    }
  }

  lemma {:induction false} NotASource(moves: seq<BudgetMove>, c: CategoryId)
    requires forall m :: m in moves ==> m.source != c
    ensures PulledFrom(moves, c) == 0
  {
    if moves != [] {
      assert moves[|moves| - 1] in moves;
      NotASource(moves[..|moves| - 1], c);
    }
  }
}
