/** Where needs and donors come from, and when a plan over the donors passes the guard. */
module Donors {
  import opened Prelude
  import opened Overspend
  import opened Coverage
  import opened Floor
  import opened Waterfall
  import opened Guards
  import CoverageTheorems
  import StableSort
  import Text

  const READY_TO_ASSIGN: CategoryId := "@ready-to-assign"

  // ---------- needs ----------

  function NeedOf(a: Assessment): Need {
    var shortfall := a.projected - a.spent - a.available;
    Need(a.category, if shortfall < 0 then 0 else shortfall)
  }

  /** The verdict read off the gap: overspent exactly when the balance is negative,
      trending exactly when it is not and the gap exceeds the threshold; and the need is
      the gap, when there is one. */
  lemma VerdictIsNeed(spend: CategorySpend, clock: MonthClock, threshold: Money)
    requires clock.Valid()
    ensures var a := Assess(spend, clock, threshold);
            && (a.verdict.AlreadyOver? <==> spend.balance < 0)
            && (a.verdict.TrendingOver? <==> spend.balance >= 0 && Gap(spend, clock) > threshold)
            && NeedOf(a) == Need(spend.category, Max(0, Gap(spend, clock)))
            && Gap(spend, clock) == a.projected - Max(0, -spend.activity) - spend.balance
  {
  }

  /** A flagged category has nothing to cover exactly when its funds reach: either they are
      negative against money due back, or the threshold itself is negative. */
  lemma {:induction false} FlaggedWithoutNeedIff(spend: CategorySpend, clock: MonthClock, threshold: Money)
    requires clock.Valid()
    ensures var a := Assess(spend, clock, threshold);
            a.verdict != OK && NeedOf(a).shortfall == 0 <==>
            Gap(spend, clock) <= 0 && (spend.balance < 0 || threshold < Gap(spend, clock))
    ensures threshold >= 0 && spend.scheduledRemaining >= 0 ==>
              (Assess(spend, clock, threshold).verdict != OK ==>
                 NeedOf(Assess(spend, clock, threshold)).shortfall > 0)
  {
    ProjectionBounds(spend, clock);
  }

  predicate BiggerFirst(a: Need, b: Need) {
    a.shortfall > b.shortfall || (a.shortfall == b.shortfall && Text.LexLeq(a.category, b.category))
  }

  lemma BiggerFirstIsTotalPreorder()
    ensures StableSort.TotalPreorder(BiggerFirst)
  {
    forall a: Need, b: Need ensures BiggerFirst(a, b) || BiggerFirst(b, a) {
      Text.LexTotal(a.category, b.category);
    }
    forall a: Need, b: Need, c: Need | BiggerFirst(a, b) && BiggerFirst(b, c) ensures BiggerFirst(a, c) {
      if a.shortfall == b.shortfall == c.shortfall {
        Text.LexTransitive(a.category, b.category, c.category);
      }
    }
  }

  function Pending(assessments: seq<Assessment>): (r: seq<Need>)
    ensures forall n :: n in r ==> n.shortfall > 0
  {
    if assessments == [] then []
    else
      var need := NeedOf(assessments[|assessments| - 1]);
      Pending(assessments[..|assessments| - 1]) + if need.shortfall <= 0 then [] else [need]
  }

  function NeedsFrom(assessments: seq<Assessment>): seq<Need> {
    StableSort.Sort(BiggerFirst, Pending(assessments))
  }

  /** How many of the assessments have exactly this need. */
  ghost function HowMany(assessments: seq<Assessment>, need: Need): nat {
    if assessments == [] then 0
    else HowMany(assessments[..|assessments| - 1], need)
         + if NeedOf(assessments[|assessments| - 1]) == need then 1 else 0
  }

  lemma {:induction false} PendingCounts(assessments: seq<Assessment>, need: Need)
    ensures multiset(Pending(assessments))[need] == if need.shortfall > 0 then HowMany(assessments, need) else 0
  {
    if assessments != [] {
      PendingCounts(assessments[..|assessments| - 1], need);
    }
  }

  /** The needs of a pass: each as often as assessments with a positive shortfall have it,
      biggest first and ties in category order. */
  lemma {:induction false} NeedsBiggestFirst(assessments: seq<Assessment>)
    ensures var needs := NeedsFrom(assessments);
            && (forall i, j :: 0 <= i < j < |needs| ==> needs[i].shortfall >= needs[j].shortfall > 0)
            && (forall i, j :: 0 <= i < j < |needs| && needs[i].shortfall == needs[j].shortfall ==>
                  Text.LexLeq(needs[i].category, needs[j].category))
            && (forall n :: multiset(needs)[n] == if n.shortfall > 0 then HowMany(assessments, n) else 0)
  {
    BiggerFirstIsTotalPreorder();
    var needs := NeedsFrom(assessments);
    StableSort.Sorted(BiggerFirst, Pending(assessments));
    forall n: Need ensures multiset(needs)[n] == if n.shortfall > 0 then HowMany(assessments, n) else 0 {
      PendingCounts(assessments, n);
    }
    forall n | n in needs ensures n.shortfall > 0 {
      StableSort.SameElements(BiggerFirst, Pending(assessments), n);
    }
    forall i, j | 0 <= i < j < |needs| ensures needs[i].shortfall >= needs[j].shortfall > 0 {
      assert BiggerFirst(needs[i], needs[j]) && needs[j] in needs;
    }
    forall i, j | 0 <= i < j < |needs| && needs[i].shortfall == needs[j].shortfall
      ensures Text.LexLeq(needs[i].category, needs[j].category)
    {
      assert BiggerFirst(needs[i], needs[j]);
    }
  }

  // ---------- donors ----------

  /** What a donor can spare after its own projected remaining spend, and that projection. */
  function DonorSlack(spend: CategorySpend, clock: MonthClock): (Money, Money)
    requires clock.Valid()
  {
    var projection := ProjectSpend(spend, clock);
    var remaining := projection - SpentMagnitude(spend);
    var slack := spend.balance - remaining;
    (if slack < 0 then 0 else slack, projection)
  }

  /** A donor's slack is its own shortfall with the sign turned: at most one of the
      two is positive, and their difference is what is left over or missing. */
  lemma SlackMirrorsNeed(spend: CategorySpend, clock: MonthClock, threshold: Money)
    requires clock.Valid()
    ensures var slack := DonorSlack(spend, clock).0;
            var need := NeedOf(Assess(spend, clock, threshold)).shortfall;
            (slack == 0 || need == 0) && need - slack == Gap(spend, clock)
    ensures DonorSlack(spend, clock)
         == (Max(0, spend.balance - (ProjectSpend(spend, clock) - Max(0, -spend.activity))), ProjectSpend(spend, clock))
  {
  }

  function DonorSources(spends: seq<CategorySpend>, exclude: set<CategoryId>, clock: MonthClock): seq<Source>
    requires clock.Valid()
  {
    if spends == [] then []
    else
      var spend := spends[|spends| - 1];
      var (slack, projection) := DonorSlack(spend, clock);
      DonorSources(spends[..|spends| - 1], exclude, clock)
      + if spend.category in exclude || slack <= 0 then []
        else [Source(spend.category, spend.balance, Overfunded, Some(slack), projection)]
  }

  function DonorPool(spends: seq<CategorySpend>, readyToAssign: Money, exclude: set<CategoryId>, clock: MonthClock):
    seq<Source>
    requires clock.Valid()
  {
    (if readyToAssign > 0 then [Source(READY_TO_ASSIGN, readyToAssign, ReadyToAssign, Some(readyToAssign), 0)] else [])
    + DonorSources(spends, exclude, clock)
  }

  method SourcesFromSpends(
      spends: seq<CategorySpend>, readyToAssign: Money, exclude: set<CategoryId>, clock: MonthClock)
    returns (sources: seq<Source>)
    requires clock.Valid()
    ensures sources == DonorPool(spends, readyToAssign, exclude, clock)
  {
    sources := [];
    if readyToAssign > 0 {
      sources := sources + [Source(READY_TO_ASSIGN, readyToAssign, ReadyToAssign, Some(readyToAssign), 0)];
    }
    ghost var head := sources;
    for k := 0 to |spends|
      invariant sources == head + DonorSources(spends[..k], exclude, clock)
    {
      var spend := spends[k];
      assert spends[..k + 1][..k] == spends[..k];
      if spend.category in exclude {
        continue;
      }
      var (slack, projection) := DonorSlack(spend, clock);
      if slack <= 0 {
        continue;
      }
      sources := sources + [Source(spend.category, spend.balance, Overfunded, Some(slack), projection)];
    }
    assert spends[..|spends|] == spends;
  }

  // ---------- the budget as the guard reads it ----------

  /** One entry per real category; the sentinel is not one. */
  ghost predicate DistinctSpends(spends: seq<CategorySpend>) {
    && (forall i, j :: 0 <= i < j < |spends| ==> spends[i].category != spends[j].category)
    && (forall i :: 0 <= i < |spends| ==> spends[i].category != READY_TO_ASSIGN)
  }

  function Balances(spends: seq<CategorySpend>): Funds {
    if spends == [] then map[]
    else
      var s := spends[|spends| - 1];
      Balances(spends[..|spends| - 1])[s.category := s.balance]
  }

  function Slacks(spends: seq<CategorySpend>, clock: MonthClock): Funds
    requires clock.Valid()
  {
    if spends == [] then map[]
    else
      var s := spends[|spends| - 1];
      Slacks(spends[..|spends| - 1], clock)[s.category := DonorSlack(s, clock).0]
  }

  function AvailableOf(spends: seq<CategorySpend>, readyToAssign: Money): Funds {
    Balances(spends)[READY_TO_ASSIGN := readyToAssign]
  }

  function SlackOf(spends: seq<CategorySpend>, readyToAssign: Money, clock: MonthClock): Funds
    requires clock.Valid()
  {
    Slacks(spends, clock)[READY_TO_ASSIGN := readyToAssign]
  }

  lemma {:induction false} StateOf(spends: seq<CategorySpend>, readyToAssign: Money, clock: MonthClock, i: nat)
    requires clock.Valid() && DistinctSpends(spends) && i < |spends|
    ensures var c := spends[i].category;
            && Lookup(AvailableOf(spends, readyToAssign), c, 0) == spends[i].balance
            && SlackLimit(c, AvailableOf(spends, readyToAssign), Some(SlackOf(spends, readyToAssign, clock)))
               == DonorSlack(spends[i], clock).0
  {
    StateEntries(spends, clock, i);
  }

  lemma {:induction false} StateEntries(spends: seq<CategorySpend>, clock: MonthClock, i: nat)
    requires clock.Valid() && DistinctSpends(spends) && i < |spends|
    ensures var c := spends[i].category;
            && c in Balances(spends) && Balances(spends)[c] == spends[i].balance
            && c in Slacks(spends, clock) && Slacks(spends, clock)[c] == DonorSlack(spends[i], clock).0
  {
    if i < |spends| - 1 {
      StateEntries(spends[..|spends| - 1], clock, i);
    }
  }

  // ---------- the planner passes its own guard ----------

  lemma {:induction false} PoolGrows(
      spends: seq<CategorySpend>, readyToAssign: Money, exclude: set<CategoryId>, clock: MonthClock, n: nat)
    requires clock.Valid() && 0 < n <= |spends|
    ensures var before := Drawables(DonorPool(spends[..n - 1], readyToAssign, exclude, clock));
            var last, slack := spends[n - 1], DonorSlack(spends[n - 1], clock).0;
            Drawables(DonorPool(spends[..n], readyToAssign, exclude, clock))
            == if last.category in exclude || slack <= 0 then before else before[last.category := slack]
  {
    hide DonorSlack, Drawables;
    var before, pool := DonorPool(spends[..n - 1], readyToAssign, exclude, clock),
                        DonorPool(spends[..n], readyToAssign, exclude, clock);
    assert spends[..n][..n - 1] == spends[..n - 1];
    var (slack, projection) := DonorSlack(spends[n - 1], clock);
    if spends[n - 1].category in exclude || slack <= 0 {
      assert pool == before;
    } else {
      var added := Source(spends[n - 1].category, spends[n - 1].balance, Overfunded, Some(slack), projection);
      assert pool == before + [added];
      DrawablesAppend(before, added);
    }
  }

  lemma DrawablesAppend(sources: seq<Source>, added: Source)
    ensures Drawables(sources + [added]) == Drawables(sources)[added.category := added.Drawable()]
    ensures Drawables([added]) == map[added.category := added.Drawable()]
  {
    assert (sources + [added])[..|sources|] == sources;
    assert [added][..0] == [];
  }

  /** Every drawable of the pool is the positive slack of a listed category, or the
      positive Ready-to-Assign. */
  lemma {:induction false} PoolDrawables(
      spends: seq<CategorySpend>, readyToAssign: Money, exclude: set<CategoryId>, clock: MonthClock, n: nat,
      c: CategoryId)
    requires clock.Valid() && DistinctSpends(spends) && n <= |spends|
    requires c in Drawables(DonorPool(spends[..n], readyToAssign, exclude, clock))
    ensures var d := Drawables(DonorPool(spends[..n], readyToAssign, exclude, clock))[c];
            || (c == READY_TO_ASSIGN && d == readyToAssign > 0)
            || exists i :: 0 <= i < n && spends[i].category == c && c !in exclude
                           && d == DonorSlack(spends[i], clock).0 > 0
  {
    hide DonorSlack, Drawables;
    if n == 0 {
      assert spends[..0] == [];
      var ready := Source(READY_TO_ASSIGN, readyToAssign, ReadyToAssign, Some(readyToAssign), 0);
      assert DonorPool([], readyToAssign, exclude, clock) == if readyToAssign > 0 then [ready] else [];
      DrawablesAppend([], ready);
    } else {
      hide DonorPool;
      PoolGrows(spends, readyToAssign, exclude, clock, n);
      if c in Drawables(DonorPool(spends[..n - 1], readyToAssign, exclude, clock)) {
        PoolDrawables(spends, readyToAssign, exclude, clock, n - 1, c);
      }
    }
  }

  /** Every donor of the pool has the slack it offers in hand. */
  ghost predicate SlackInHand(spends: seq<CategorySpend>, exclude: set<CategoryId>, clock: MonthClock)
    requires clock.Valid()
  {
    forall i :: 0 <= i < |spends| && spends[i].category !in exclude && DonorSlack(spends[i], clock).0 > 0 ==>
      DonorSlack(spends[i], clock).0 <= spends[i].balance
  }

  /** A category that expects no money back has its slack in hand. */
  lemma {:induction false} NothingDueBack(spends: seq<CategorySpend>, exclude: set<CategoryId>, clock: MonthClock)
    requires clock.Valid() && forall i :: 0 <= i < |spends| ==> spends[i].scheduledRemaining >= 0
    ensures SlackInHand(spends, exclude, clock)
  {
    forall i | 0 <= i < |spends| && DonorSlack(spends[i], clock).0 > 0
      ensures DonorSlack(spends[i], clock).0 <= spends[i].balance
    {
      ProjectionBounds(spends[i], clock);
    }
  }

  lemma {:induction false} DrawableWithinState(
      spends: seq<CategorySpend>, readyToAssign: Money, exclude: set<CategoryId>, clock: MonthClock, c: CategoryId)
    requires clock.Valid() && DistinctSpends(spends) && SlackInHand(spends, exclude, clock)
    requires c in Drawables(DonorPool(spends, readyToAssign, exclude, clock))
    ensures var d := Drawables(DonorPool(spends, readyToAssign, exclude, clock))[c];
            && 0 < d
            && d <= Lookup(AvailableOf(spends, readyToAssign), c, 0)
            && d <= SlackLimit(c, AvailableOf(spends, readyToAssign), Some(SlackOf(spends, readyToAssign, clock)))
  {
    hide Drawables, DonorPool, Balances, Slacks, DonorSlack;
    assert spends[..|spends|] == spends;
    PoolDrawables(spends, readyToAssign, exclude, clock, |spends|, c);
    if c != READY_TO_ASSIGN {
      var i :| 0 <= i < |spends| && spends[i].category == c && c !in exclude
               && Drawables(DonorPool(spends, readyToAssign, exclude, clock))[c] == DonorSlack(spends[i], clock).0 > 0;
      StateOf(spends, readyToAssign, clock, i);
    }
  }

  /** Any nonempty plan over the donor pool passes the apply-time guard read from the
      same budget, when the donors have their slack in hand. */
  lemma {:induction false} PlanPassesCheck(
      needs: seq<Need>, spends: seq<CategorySpend>, readyToAssign: Money, exclude: set<CategoryId>,
      clock: MonthClock, ceiling: Money)
    requires clock.Valid() && DistinctSpends(spends) && SlackInHand(spends, exclude, clock)
    requires Plan(needs, DonorPool(spends, readyToAssign, exclude, clock), ceiling).moves != []
    ensures CheckVerdict(Plan(needs, DonorPool(spends, readyToAssign, exclude, clock), ceiling).moves,
                         AvailableOf(spends, readyToAssign), Some(SlackOf(spends, readyToAssign, clock)),
                         ceiling).None?
  {
    hide Drawables, DonorPool, Plan, AvailableOf, SlackOf, SlackLimit, CheckVerdict, PulledFrom, Lookup;
    var pool := DonorPool(spends, readyToAssign, exclude, clock);
    var moves := Plan(needs, pool, ceiling).moves;
    var available, slack := AvailableOf(spends, readyToAssign), Some(SlackOf(spends, readyToAssign, clock));
    CoverageTheorems.PlanTotals(needs, pool, ceiling);
    forall m | m in moves
      ensures PulledFrom(moves, m.source) <= Lookup(available, m.source, 0)
      ensures PulledFrom(moves, m.source) <= SlackLimit(m.source, available, slack)
    {
      DrawableWithinState(spends, readyToAssign, exclude, clock, m.source);
    }
    CheckAcceptsIff(moves, available, slack, ceiling);
  }

  /** The plan of every list of needs passes the guard, when it moves anything. */
  ghost predicate EveryPlanPasses(
      spends: seq<CategorySpend>, readyToAssign: Money, exclude: set<CategoryId>, clock: MonthClock, ceiling: Money)
    requires clock.Valid()
  {
    forall needs :: PlanPasses(needs, spends, readyToAssign, exclude, clock, ceiling)
  }

  ghost predicate PlanPasses(
      needs: seq<Need>, spends: seq<CategorySpend>, readyToAssign: Money, exclude: set<CategoryId>,
      clock: MonthClock, ceiling: Money)
    requires clock.Valid()
  {
    var moves := Plan(needs, DonorPool(spends, readyToAssign, exclude, clock), ceiling).moves;
    moves != [] ==> CheckVerdict(moves, AvailableOf(spends, readyToAssign),
                                 Some(SlackOf(spends, readyToAssign, clock)), ceiling).None?
  }

  /** The planner refines its guard exactly when the donors have their slack in hand. */
  lemma {:induction false} EveryPlanPassesIff(
      spends: seq<CategorySpend>, readyToAssign: Money, exclude: set<CategoryId>, clock: MonthClock, ceiling: Money)
    requires clock.Valid() && DistinctSpends(spends) && ceiling > 0
    ensures EveryPlanPasses(spends, readyToAssign, exclude, clock, ceiling) <==> SlackInHand(spends, exclude, clock)
  {
    hide DonorPool, Plan, AvailableOf, SlackOf, CheckVerdict, DonorSlack;
    if SlackInHand(spends, exclude, clock) {
      forall needs ensures PlanPasses(needs, spends, readyToAssign, exclude, clock, ceiling) {
        if Plan(needs, DonorPool(spends, readyToAssign, exclude, clock), ceiling).moves != [] {
          PlanPassesCheck(needs, spends, readyToAssign, exclude, clock, ceiling);
        }
      }
    } else {
      var i :| 0 <= i < |spends| && spends[i].category !in exclude
               && DonorSlack(spends[i], clock).0 > Max(0, spends[i].balance);
      var pool := DonorPool(spends, readyToAssign, exclude, clock);
      var needs := [Need("", Total(PoolSupplies(pool, ceiling)))];
      OverdrawnPlanFails(needs, spends, readyToAssign, exclude, clock, ceiling, i);
      assert !PlanPasses(needs, spends, readyToAssign, exclude, clock, ceiling);
    }
  }

  /** Asked for everything there is, the plan overdraws a donor that offers more than it
      holds, and is refused. */
  lemma {:induction false} OverdrawnPlanFails(
      needs: seq<Need>, spends: seq<CategorySpend>, readyToAssign: Money, exclude: set<CategoryId>,
      clock: MonthClock, ceiling: Money, i: nat)
    requires clock.Valid() && DistinctSpends(spends) && ceiling > 0
    requires i < |spends| && spends[i].category !in exclude
    requires DonorSlack(spends[i], clock).0 > Max(0, spends[i].balance)
    requires needs == [Need("", Total(PoolSupplies(DonorPool(spends, readyToAssign, exclude, clock), ceiling)))]
    ensures !PlanPasses(needs, spends, readyToAssign, exclude, clock, ceiling)
  {
    hide DonorPool, Plan, AvailableOf, SlackOf, CheckVerdict, DonorSlack, Drawables, PoolSupplies, PulledFrom;
    hide SlackLimit;
    var pool, c := DonorPool(spends, readyToAssign, exclude, clock), spends[i].category;
    var moves := Plan(needs, pool, ceiling).moves;
    SingleDemand(needs[0]);
    assert spends[..|spends|] == spends;
    DonorIsDrawable(spends, readyToAssign, exclude, clock, |spends|, i);
    CoverageTheorems.PlanDrains(needs, pool, ceiling, c);
    CoverageTheorems.PlanTotals(needs, pool, ceiling);
    PulledHasMove(moves, c);
    StateOf(spends, readyToAssign, clock, i);
    CheckAcceptsIff(moves, AvailableOf(spends, readyToAssign), Some(SlackOf(spends, readyToAssign, clock)), ceiling);
  }

  /** A category with slack that is not excluded offers it in the pool. */
  lemma {:induction false} DonorIsDrawable(
      spends: seq<CategorySpend>, readyToAssign: Money, exclude: set<CategoryId>, clock: MonthClock, n: nat, i: nat)
    requires clock.Valid() && DistinctSpends(spends) && i < n <= |spends|
    requires spends[i].category !in exclude && DonorSlack(spends[i], clock).0 > 0
    ensures var drawables := Drawables(DonorPool(spends[..n], readyToAssign, exclude, clock));
            spends[i].category in drawables && drawables[spends[i].category] == DonorSlack(spends[i], clock).0
  {
    hide DonorSlack, Drawables, DonorPool;
    PoolGrows(spends, readyToAssign, exclude, clock, n);
    if i < n - 1 {
      DonorIsDrawable(spends, readyToAssign, exclude, clock, n - 1, i);
    }
  }
}
