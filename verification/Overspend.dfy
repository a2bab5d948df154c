/** The overspend monitor's arithmetic: the budget-anchored projection of
    month-end spend, the verdict on one category, and the alert dedupe rule. */
module Overspend {
  import opened Prelude

  /** A category's month-to-date figures; `activity` is signed, outflows negative. */
  datatype CategorySpend = CategorySpend(
    category: CategoryId,
    name: string,
    budgeted: Money,
    activity: Money,
    balance: Money,
    scheduledRemaining: Money)

  datatype MonthClock = MonthClock(day: int, length: int) {
    predicate Valid() { 28 <= length <= 31 && 1 <= day <= length }
  }

  datatype Verdict = OK | TrendingOver | AlreadyOver

  datatype Assessment = Assessment(
    category: CategoryId,
    name: string,
    verdict: Verdict,
    budgeted: Money,
    spent: Money,
    projected: Money,
    available: Money)

  datatype PriorAlert = PriorAlert(verdict: Verdict, projected: Money)

  /** Twenty-five currency units. */
  const DEFAULT_TREND_THRESHOLD: Money := 25_000

  function SpentMagnitude(c: CategorySpend): Money {
    if c.activity < 0 then -c.activity else 0
  }

  /** The plan view of the month: what was budgeted, or what is already gone. */
  function Anchor(c: CategorySpend): Money {
    Max(c.budgeted, SpentMagnitude(c))
  }

  /** Burn rate and plan, weighted by how much of the month has passed. */
  function Blend(spent: Money, anchor: Money, clock: MonthClock): Money
    requires clock.Valid()
  {
    var runRate := spent * clock.length / clock.day;
    (clock.day * runRate + (clock.length - clock.day) * anchor) / clock.length
  }

  function ProjectSpend(c: CategorySpend, clock: MonthClock): Money
    requires clock.Valid()
  {
    var spent := SpentMagnitude(c);
    var projected := Blend(spent, Anchor(c), clock) + c.scheduledRemaining;
    var floor := spent + c.scheduledRemaining;
    if projected > floor then projected else floor
  }

  /** Projected remaining spend less the funds on hand, unclamped. */
  function Gap(c: CategorySpend, clock: MonthClock): Money
    requires clock.Valid()
  {
    ProjectSpend(c, clock) - SpentMagnitude(c) - c.balance
  }

  function Assess(c: CategorySpend, clock: MonthClock, threshold: Money): Assessment
    requires clock.Valid()
  {
    var spent := SpentMagnitude(c);
    var projected := ProjectSpend(c, clock);
    var projectedRemaining := projected - spent;
    var verdict :=
      if c.balance < 0 then AlreadyOver
      else if projectedRemaining - c.balance > threshold then TrendingOver
      else OK;
    Assessment(c.category, c.name, verdict, c.budgeted, spent, projected, c.balance)
  }

  function ShouldAlert(a: Assessment, prior: Option<PriorAlert>, threshold: Money): bool {
    if a.verdict.OK? then false
    else if prior.None? then true
    else
      var escalated := a.verdict.AlreadyOver? && !prior.value.verdict.AlreadyOver?;
      var worsened := a.projected - prior.value.projected > threshold;
      escalated || worsened
  }

  // ---------- integer-floor arithmetic of the blend ----------

  lemma FloorBounds(n: int, d: int)
    requires d > 0
    ensures d * (n / d) <= n < d * (n / d) + d
  {
  }

  lemma CancelLess(d: int, a: int, b: int)
    requires d > 0 && d * a < d * b
    ensures a < b
  {
  }

  lemma MulMonotone(k: int, a: int, b: int)
    requires k >= 0 && a <= b
    ensures k * a <= k * b
  {
  }

  /** n / d is the largest integer whose d-fold does not exceed n. */
  lemma {:induction false} FloorIsLargest(n: int, d: int, q: int)
    requires d > 0 && d * q <= n
    ensures q <= n / d
  {
    FloorBounds(n, d);
    assert d * (n / d) + d == d * (n / d + 1);
    CancelLess(d, q, n / d + 1);
  }

  /** The blend against its exact rational value, in units of 1/length: it never
      exceeds it and falls short of it by less than two milliunits. */
  lemma {:induction false} BlendBounds(spent: Money, anchor: Money, clock: MonthClock)
    requires clock.Valid() && 0 <= spent <= anchor
    ensures var exact := clock.length * spent + (clock.length - clock.day) * anchor;
            var scaled := clock.length * Blend(spent, anchor, clock);
            && exact - 2 * clock.length < scaled <= exact
            && exact - clock.day - clock.length + 2 <= scaled
  {
    var len, day := clock.length, clock.day;
    var runRate := spent * len / day;
    FloorBounds(spent * len, day);
    FloorBounds(day * runRate + (len - day) * anchor, len);
    assert spent * len == len * spent;
  }

  /** Money already gone is never projected away by the blend itself, so the
      final clamp of the projection never binds. */
  lemma {:induction false} BlendAtLeastSpent(spent: Money, anchor: Money, clock: MonthClock)
    requires clock.Valid() && 0 <= spent <= anchor
    ensures spent <= Blend(spent, anchor, clock)
    ensures clock.day == clock.length ==> Blend(spent, anchor, clock) == spent
  {
    var len, day := clock.length, clock.day;
    RunRateAtLeastSpent(spent, len, day);
    var runRate := spent * len / day;
    MulMonotone(day, spent, runRate);
    MulMonotone(len - day, spent, anchor);
    assert day * spent + (len - day) * spent == len * spent;
    FloorIsLargest(day * runRate + (len - day) * anchor, len, spent);
    if day == len {
      BlendBounds(spent, anchor, clock);
      assert len * Blend(spent, anchor, clock) < len * (spent + 1) by {
        assert (len - day) * anchor == 0;
        assert len * (spent + 1) == len * spent + len;
      }
      CancelLess(len, Blend(spent, anchor, clock), spent + 1);
    }
  }

  lemma {:induction false} RunRateAtLeastSpent(spent: Money, len: int, day: int)
    requires spent >= 0 && 1 <= day <= len
    ensures spent <= spent * len / day
  {
    MulMonotone(spent, day, len);
    assert day * spent == spent * day;
    FloorIsLargest(spent * len, day, spent);
  }

  /** The projection is the blend plus what is scheduled, at most spent plus the
      unelapsed share of the plan plus what is scheduled, and exactly what was
      spent plus what is scheduled on the last day of the month. */
  lemma {:induction false} ProjectionBounds(c: CategorySpend, clock: MonthClock)
    requires clock.Valid()
    ensures var spent, projected := SpentMagnitude(c), ProjectSpend(c, clock);
            var len := clock.length;
            var exact := len * spent + (len - clock.day) * Anchor(c);
            && projected == Blend(spent, Anchor(c), clock) + c.scheduledRemaining
            && spent + c.scheduledRemaining <= projected
            && exact - 2 * len < len * (projected - c.scheduledRemaining) <= exact
            && (clock.day == len ==> projected == spent + c.scheduledRemaining)
  {
    BlendBounds(SpentMagnitude(c), Anchor(c), clock);
    BlendAtLeastSpent(SpentMagnitude(c), Anchor(c), clock);
  }

  /** The projection in full, on the raw figures: `run` is the month at the pace so far,
      rounded down, and `blend` the days gone at that pace and the rest at the plan, which
      is the budget or what is gone already, rounded down again; what is scheduled comes on
      top, and an inflow counts as nothing spent. */
  lemma {:induction false} ProjectionExact(c: CategorySpend, clock: MonthClock, run: Money, blend: Money)
    requires clock.Valid()
    requires var spent := Max(0, -c.activity);
             var plan := Max(c.budgeted, spent);
             && clock.day * run <= spent * clock.length < clock.day * run + clock.day
             && clock.length * blend <= clock.day * run + (clock.length - clock.day) * plan
                < clock.length * blend + clock.length
    ensures ProjectSpend(c, clock) == blend + c.scheduledRemaining
  {
    hide Blend;
    var spent, plan := Max(0, -c.activity), Max(c.budgeted, Max(0, -c.activity));
    BlendAtLeastSpent(spent, plan, clock);
    BlendExact(spent, plan, clock, run, blend);
  }

  lemma {:induction false} BlendExact(spent: Money, plan: Money, clock: MonthClock, run: Money, blend: Money)
    requires clock.Valid()
    requires clock.day * run <= spent * clock.length < clock.day * run + clock.day
    requires clock.length * blend <= clock.day * run + (clock.length - clock.day) * plan
             < clock.length * blend + clock.length
    ensures Blend(spent, plan, clock) == blend
  {
    hide Blend;
    QuotientIs(spent * clock.length, clock.day, run);
    QuotientIs(clock.day * run + (clock.length - clock.day) * plan, clock.length, blend);
    BlendOf(spent, plan, clock, run);
  }

  lemma BlendOf(spent: Money, plan: Money, clock: MonthClock, run: Money)
    requires clock.Valid() && spent * clock.length / clock.day == run
    ensures Blend(spent, plan, clock) == (clock.day * run + (clock.length - clock.day) * plan) / clock.length
  {
  }

  lemma {:induction false} QuotientIs(n: int, d: int, q: int)
    requires d > 0 && d * q <= n < d * q + d
    ensures n / d == q
  {
    FloorIsLargest(n, d, q);
    FloorBounds(n, d);
    assert d * (q + 1) == d * q + d;
    CancelLess(d, n / d, q + 1);
  }

  /** The assessment reads the raw figures, an inflow as no activity at all; the balance
      below zero is over, and otherwise what is still to come against it decides. */
  lemma AssessedOn(c: CategorySpend, clock: MonthClock, threshold: Money)
    requires clock.Valid()
    ensures var a, spent := Assess(c, clock, threshold), Max(0, -c.activity);
            && a.category == c.category && a.name == c.name && a.budgeted == c.budgeted
            && a.spent == spent && a.available == c.balance && a.projected == ProjectSpend(c, clock)
            && (a.verdict.AlreadyOver? <==> c.balance < 0)
            && (a.verdict.TrendingOver? <==> c.balance >= 0 && a.projected - spent - c.balance > threshold)
    ensures c.activity >= 0 ==> Assess(c, clock, threshold) == Assess(c.(activity := 0), clock, threshold)
    ensures var a := Assess(c, clock, DEFAULT_TREND_THRESHOLD);
            a.verdict.TrendingOver? <==> c.balance >= 0 && a.projected - a.spent - c.balance > 25_000
  {
  }

  lemma {:induction false} BlendClimb(spent: Money, anchor: Money, early: MonthClock, late: MonthClock)
    requires early.Valid() && late.Valid() && 0 <= spent <= anchor
    requires early.length == late.length && early.day <= late.day
    ensures Blend(spent, anchor, late) <= Blend(spent, anchor, early) + 1
  {
    if early.day < late.day {
      hide Blend;
      var len := early.length;
      BlendBounds(spent, anchor, early);
      BlendBounds(spent, anchor, late);
      var before, after := Blend(spent, anchor, early), Blend(spent, anchor, late);
      LaterShareIsSmaller(anchor, len - late.day, late.day - early.day);
      BoundedRise(len, before, after, early.day + len - 2 - anchor);
    }
  }

  lemma LaterShareIsSmaller(anchor: Money, rest: nat, passed: nat)
    requires anchor >= 0 && passed >= 1
    ensures rest * anchor <= (rest + passed) * anchor - anchor
  {
    assert (rest + passed) * anchor == rest * anchor + passed * anchor;
    MulMonotone(anchor, 1, passed);
  }

  lemma BoundedRise(len: int, before: int, after: int, rise: int)
    requires len > 0 && len * after <= len * before + rise && rise < 2 * len
    ensures after <= before + 1
  {
    assert len * (before + 2) == len * before + 2 * len;
    CancelLess(len, after, before + 2);
  }

  /** For fixed figures a later day projects at most one milliunit more. */
  lemma {:induction false} QuietProjectionHardlyClimbs(c: CategorySpend, early: MonthClock, late: MonthClock)
    requires early.Valid() && late.Valid()
    requires early.length == late.length && early.day <= late.day
    ensures ProjectSpend(c, late) <= ProjectSpend(c, early) + 1
  {
    ProjectionBounds(c, early);
    ProjectionBounds(c, late);
    BlendClimb(SpentMagnitude(c), Anchor(c), early, late);
  }

  /** The one-milliunit climb is real: twelve milliunits spent of fifteen budgeted project
      to one milliunit more on the twentieth of a 30-day month than on the nineteenth,
      although the original documents the projection as monotone. */
  lemma {:induction false} QuietProjectionCanClimb()
    ensures var c := CategorySpend("c", "c", 15, -12, 0, 0);
            ProjectSpend(c, MonthClock(19, 30)) < ProjectSpend(c, MonthClock(20, 30))
  {
  }

  lemma {:induction false} FloorNonExpansive(low: int, high: int, len: int, extra: int)
    requires len > 0 && low <= high <= low + len * extra
    ensures low / len <= high / len <= low / len + extra
  {
    FloorBounds(low, len);
    FloorBounds(high, len);
    FloorIsLargest(high, len, low / len);
    assert len * (high / len - extra) == len * (high / len) - len * extra;
    FloorIsLargest(low, len, high / len - extra);
  }

  /** Raising the budget by `extra` raises the projection by between zero and
      `extra`: the projection is monotone and non-expansive in `budgeted`. */
  lemma {:induction false} ProjectionNonExpansive(c: CategorySpend, extra: Money, clock: MonthClock)
    requires clock.Valid() && extra >= 0
    ensures var raised := c.(budgeted := c.budgeted + extra);
            ProjectSpend(c, clock) <= ProjectSpend(raised, clock) <= ProjectSpend(c, clock) + extra
  {
    var raised := c.(budgeted := c.budgeted + extra);
    ProjectionBounds(c, clock);
    ProjectionBounds(raised, clock);
    BlendNonExpansive(SpentMagnitude(c), Anchor(c), Anchor(raised), extra, clock);
  }

  lemma {:induction false} BlendNonExpansive(spent: Money, low: Money, high: Money, extra: Money, clock: MonthClock)
    requires clock.Valid() && low <= high <= low + extra
    ensures Blend(spent, low, clock) <= Blend(spent, high, clock) <= Blend(spent, low, clock) + extra
  {
    var len, rest := clock.length, clock.length - clock.day;
    MulMonotone(rest, low, high);
    MulMonotone(rest, high, low + extra);
    MulMonotone(extra, rest, len);
    assert rest * (low + extra) == rest * low + extra * rest;
    assert extra * len == len * extra;
    var burn := clock.day * (spent * len / clock.day);
    FloorNonExpansive(burn + rest * low, burn + rest * high, len, extra);
  }
}
