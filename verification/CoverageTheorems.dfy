/** What the planner's plan is worth: it is the best any planner could do for every
    prefix of the needs, and what it leaves uncovered is exactly the tail. */
module CoverageTheorems {
  import opened Prelude
  import opened Waterfall
  import opened Coverage

  ghost predicate DistinctNeeds(needs: seq<Need>) {
    forall i, j :: 0 <= i < j < |needs| ==> needs[i].category != needs[j].category
  }

  /** What a list of moves pays to the first `k` needs. */
  ghost function DeliveredTo(moves: seq<BudgetMove>, needs: seq<Need>, k: nat): Money
    requires k <= |needs|
  {
    if k == 0 then 0 else DeliveredTo(moves, needs, k - 1) + PaidTo(moves, needs[k - 1].category)
  }

  /** Any way at all to cover the needs: positive moves from pool sources, no source
      pulled past its drawable and no need paid more than it is short. */
  ghost predicate Feasible(moves: seq<BudgetMove>, needs: seq<Need>, sources: seq<Source>) {
    && (forall m :: m in moves ==> 0 < m.amount && m.source in Drawables(sources))
    && (forall c :: c in Drawables(sources) ==> PulledFrom(moves, c) <= Max(0, Drawables(sources)[c]))
    && (forall i :: 0 <= i < |needs| ==> PaidTo(moves, needs[i].category) <= Max(0, needs[i].shortfall))
  }

  // ---------- sums over the plan ----------

  /** A positive move within the ceiling, from a ranked source to one of the first
      `i` needs. */
  ghost predicate WellMade(m: BudgetMove, needs: seq<Need>, ordered: seq<Source>, ceiling: Money, i: nat)
    requires i <= |needs|
  {
    && 0 < m.amount <= ceiling
    && (exists k :: 0 <= k < i && needs[k].category == m.destination)
    && (exists k :: 0 <= k < |ordered| && ordered[k].category == m.source)
  }

  lemma {:induction false} RowSums(
      needs: seq<Need>, ordered: seq<Source>, supplies: seq<nat>, ceiling: Money, i: nat, j: nat, d: CategoryId)
    requires i < |needs| && j <= |ordered| == |supplies|
    requires ceiling > 0 || Total(supplies) == 0
    ensures var row := RowMoves(needs, ordered, supplies, ceiling, i, j);
            && TotalMoved(row) == RowSum(Demands(needs), supplies, i, j)
            && PaidTo(row, d) == if d == needs[i].category then RowSum(Demands(needs), supplies, i, j) else 0
  {
    NoMoves(d);
    hide PaidTo, TotalMoved;
    if j > 0 {
      RowSums(needs, ordered, supplies, ceiling, i, j - 1, d);
      BeforeMonotone(supplies, j, |supplies|);
      var flow := Flow(Demands(needs), supplies, i, j - 1);
      var c := ordered[j - 1].category;
      ChunkFacts(c, needs[i].category, flow, ceiling, d);
      SumsOfConcat(RowMoves(needs, ordered, supplies, ceiling, i, j - 1),
                   Chunks(c, needs[i].category, flow, ceiling), d);
    }
  }

  lemma {:induction false} RowWellMade(
      needs: seq<Need>, ordered: seq<Source>, supplies: seq<nat>, ceiling: Money, i: nat, j: nat)
    requires i < |needs| && j <= |ordered| == |supplies|
    requires ceiling > 0 || Total(supplies) == 0
    ensures forall m :: m in RowMoves(needs, ordered, supplies, ceiling, i, j) ==>
              WellMade(m, needs, ordered, ceiling, i + 1)
  {
    if j > 0 {
      RowWellMade(needs, ordered, supplies, ceiling, i, j - 1);
      BeforeMonotone(supplies, j, |supplies|);
      ChunkFacts(ordered[j - 1].category, needs[i].category, Flow(Demands(needs), supplies, i, j - 1), ceiling, "");
    }
  }

  lemma {:induction false} MovesSums(
      needs: seq<Need>, ordered: seq<Source>, supplies: seq<nat>, ceiling: Money, i: nat)
    requires i <= |needs| && |ordered| == |supplies|
    requires ceiling > 0 || Total(supplies) == 0
    ensures TotalMoved(MovesBefore(needs, ordered, supplies, ceiling, i))
         == DeliveredBefore(Demands(needs), supplies, i)
  {
    NoMoves("");
    hide RowMoves, RowSum, Before, Flow, TotalMoved;
    if i > 0 {
      MovesSums(needs, ordered, supplies, ceiling, i - 1);
      RowSums(needs, ordered, supplies, ceiling, i - 1, |ordered|, "");
      RowSumIs(Demands(needs), supplies, i - 1, |ordered|);
      SumsOfConcat(MovesBefore(needs, ordered, supplies, ceiling, i - 1),
                   RowMoves(needs, ordered, supplies, ceiling, i - 1, |ordered|), "");
    }
  }

  lemma {:induction false} MovesWellMade(
      needs: seq<Need>, ordered: seq<Source>, supplies: seq<nat>, ceiling: Money, i: nat)
    requires i <= |needs| && |ordered| == |supplies|
    requires ceiling > 0 || Total(supplies) == 0
    ensures forall m :: m in MovesBefore(needs, ordered, supplies, ceiling, i) ==>
              WellMade(m, needs, ordered, ceiling, i)
  {
    if i > 0 {
      hide RowMoves, RowSum, Before, Flow, TotalMoved;
      MovesWellMade(needs, ordered, supplies, ceiling, i - 1);
      RowWellMade(needs, ordered, supplies, ceiling, i - 1, |ordered|);
    }
  }

  lemma SameNeed(needs: seq<Need>, i: nat, j: nat)
    requires DistinctNeeds(needs) && i < |needs| && j < |needs|
    ensures needs[i].category == needs[j].category <==> i == j
  {
  }

  lemma {:induction false} RowPaid(
      needs: seq<Need>, ordered: seq<Source>, supplies: seq<nat>, ceiling: Money, n: nat, i: nat)
    requires n < |needs| && i < |needs| && |ordered| == |supplies| && DistinctNeeds(needs)
    requires ceiling > 0 || Total(supplies) == 0
    ensures PaidTo(RowMoves(needs, ordered, supplies, ceiling, n, |ordered|), needs[i].category)
         == if i == n then Delivered(Demands(needs), supplies, i) else 0
  {
    hide RowMoves, RowSum, Before, PaidTo, Overlap, DistinctNeeds, Demands;
    RowSums(needs, ordered, supplies, ceiling, n, |ordered|, needs[i].category);
    RowSumIs(Demands(needs), supplies, n, |ordered|);
    SameNeed(needs, i, n);
  }

  lemma NothingBefore(
      needs: seq<Need>, ordered: seq<Source>, supplies: seq<nat>, ceiling: Money, c: CategoryId)
    requires |ordered| == |supplies|
    ensures PulledFrom(MovesBefore(needs, ordered, supplies, ceiling, 0), c) == 0
    ensures PaidTo(MovesBefore(needs, ordered, supplies, ceiling, 0), c) == 0
  {
  }

  lemma NothingInRow(
      needs: seq<Need>, ordered: seq<Source>, supplies: seq<nat>, ceiling: Money, i: nat, c: CategoryId)
    requires i < |needs| && |ordered| == |supplies|
    ensures PulledFrom(RowMoves(needs, ordered, supplies, ceiling, i, 0), c) == 0
  {
  }

  lemma {:induction false} PaidByRow(
      needs: seq<Need>, ordered: seq<Source>, supplies: seq<nat>, ceiling: Money, n: nat, i: nat)
    requires n < |needs| && i < |needs| && |ordered| == |supplies| && DistinctNeeds(needs)
    requires ceiling > 0 || Total(supplies) == 0
    ensures PaidTo(MovesBefore(needs, ordered, supplies, ceiling, n + 1), needs[i].category)
         == PaidTo(MovesBefore(needs, ordered, supplies, ceiling, n), needs[i].category)
            + if i == n then Delivered(Demands(needs), supplies, i) else 0
  {
    hide RowMoves, Delivered, PaidTo, DistinctNeeds, Demands, Total;
    RowPaid(needs, ordered, supplies, ceiling, n, i);
    SumsOfConcat(MovesBefore(needs, ordered, supplies, ceiling, n),
                 RowMoves(needs, ordered, supplies, ceiling, n, |ordered|), needs[i].category);
  }

  lemma {:induction false} PaidToNeed(
      needs: seq<Need>, ordered: seq<Source>, supplies: seq<nat>, ceiling: Money, n: nat, i: nat)
    requires n <= |needs| && i < |needs| && |ordered| == |supplies| && DistinctNeeds(needs)
    requires ceiling > 0 || Total(supplies) == 0
    ensures PaidTo(MovesBefore(needs, ordered, supplies, ceiling, n), needs[i].category)
         == if i < n then Delivered(Demands(needs), supplies, i) else 0
  {
    hide *;
    if n == 0 {
      NothingBefore(needs, ordered, supplies, ceiling, needs[i].category);
    } else {
      PaidToNeed(needs, ordered, supplies, ceiling, n - 1, i);
      PaidByRow(needs, ordered, supplies, ceiling, n - 1, i);
    }
  }

  /** Only the first ranked source of a category has anything to pay with. */
  ghost predicate OnlyFirstsPay(ordered: seq<Source>, supplies: seq<nat>)
    requires |ordered| == |supplies|
  {
    forall k :: 0 <= k < |ordered| && !First(ordered, k) ==> supplies[k] == 0
  }

  lemma {:induction false} ChunkPulled(
      needs: seq<Need>, ordered: seq<Source>, supplies: seq<nat>, ceiling: Money, i: nat, j: nat, f: nat)
    requires i < |needs| && j < |ordered| == |supplies| && f < |ordered| && First(ordered, f)
    requires OnlyFirstsPay(ordered, supplies)
    requires ceiling > 0 || Total(supplies) == 0
    ensures var flow := Flow(Demands(needs), supplies, i, j);
            PulledFrom(Chunks(ordered[j].category, needs[i].category, flow, ceiling), ordered[f].category)
            == if f == j then flow else 0
  {
    hide PulledFrom, Chunks, Demands;
    var flow := Flow(Demands(needs), supplies, i, j);
    BeforeMonotone(supplies, j + 1, |supplies|);
    ChunkFacts(ordered[j].category, needs[i].category, flow, ceiling, ordered[f].category);
    if f != j && ordered[f].category == ordered[j].category {
      assert !First(ordered, j);
    }
  }

  lemma {:induction false} PulledByColumn(
      needs: seq<Need>, ordered: seq<Source>, supplies: seq<nat>, ceiling: Money, i: nat, j: nat, f: nat)
    requires i < |needs| && j < |ordered| == |supplies| && f < |ordered| && First(ordered, f)
    requires OnlyFirstsPay(ordered, supplies)
    requires ceiling > 0 || Total(supplies) == 0
    ensures PulledFrom(RowMoves(needs, ordered, supplies, ceiling, i, j + 1), ordered[f].category)
         == PulledFrom(RowMoves(needs, ordered, supplies, ceiling, i, j), ordered[f].category)
            + if f == j then Flow(Demands(needs), supplies, i, f) else 0
  {
    hide PulledFrom, First, Total, Flow, Chunks, Demands, OnlyFirstsPay;
    ChunkPulled(needs, ordered, supplies, ceiling, i, j, f);
    var flow := Flow(Demands(needs), supplies, i, j);
    SumsOfConcat(RowMoves(needs, ordered, supplies, ceiling, i, j),
                 Chunks(ordered[j].category, needs[i].category, flow, ceiling), ordered[f].category);
  }

  lemma {:induction false} RowPulled(
      needs: seq<Need>, ordered: seq<Source>, supplies: seq<nat>, ceiling: Money, i: nat, j: nat, f: nat)
    requires i < |needs| && j <= |ordered| == |supplies| && f < |ordered| && First(ordered, f)
    requires OnlyFirstsPay(ordered, supplies)
    requires ceiling > 0 || Total(supplies) == 0
    ensures PulledFrom(RowMoves(needs, ordered, supplies, ceiling, i, j), ordered[f].category)
         == if f < j then Flow(Demands(needs), supplies, i, f) else 0
  {
    hide *;
    if j == 0 {
      NothingInRow(needs, ordered, supplies, ceiling, i, ordered[f].category);
    } else {
      RowPulled(needs, ordered, supplies, ceiling, i, j - 1, f);
      PulledByColumn(needs, ordered, supplies, ceiling, i, j - 1, f);
    }
  }

  lemma {:induction false} PulledForNeed(
      needs: seq<Need>, ordered: seq<Source>, supplies: seq<nat>, ceiling: Money, i: nat, f: nat)
    requires i < |needs| && |ordered| == |supplies| && f < |ordered| && First(ordered, f)
    requires OnlyFirstsPay(ordered, supplies)
    requires ceiling > 0 || Total(supplies) == 0
    ensures PulledFrom(MovesBefore(needs, ordered, supplies, ceiling, i + 1), ordered[f].category)
         == PulledFrom(MovesBefore(needs, ordered, supplies, ceiling, i), ordered[f].category)
            + Flow(Demands(needs), supplies, i, f)
  {
    hide First, RowMoves, Flow, PulledFrom, Before, Total, Demands, OnlyFirstsPay;
    RowPulled(needs, ordered, supplies, ceiling, i, |ordered|, f);
    SumsOfConcat(MovesBefore(needs, ordered, supplies, ceiling, i),
                 RowMoves(needs, ordered, supplies, ceiling, i, |ordered|), ordered[f].category);
  }

  lemma {:induction false} MovesPulled(
      needs: seq<Need>, ordered: seq<Source>, supplies: seq<nat>, ceiling: Money, i: nat, f: nat)
    requires i <= |needs| && |ordered| == |supplies| && f < |ordered| && First(ordered, f)
    requires OnlyFirstsPay(ordered, supplies)
    requires ceiling > 0 || Total(supplies) == 0
    ensures PulledFrom(MovesBefore(needs, ordered, supplies, ceiling, i), ordered[f].category)
         == ColumnSum(Demands(needs), supplies, i, f)
  {
    hide *;
    if i == 0 {
      NothingBefore(needs, ordered, supplies, ceiling, ordered[f].category);
      NoColumn(Demands(needs), supplies, f);
    } else {
      NextColumn(Demands(needs), supplies, i - 1, f);
      MovesPulled(needs, ordered, supplies, ceiling, i - 1, f);
      PulledForNeed(needs, ordered, supplies, ceiling, i - 1, f);
    }
  }

  lemma {:induction false} NothingUnderNoCeiling(supplies: seq<nat>, k: nat)
    requires k <= |supplies| && forall j :: 0 <= j < |supplies| ==> supplies[j] == 0
    ensures Before(supplies, k) == 0
  {
    if k > 0 {
      NothingUnderNoCeiling(supplies, k - 1);
    }
  }

  // ---------- the theorems ----------

  /** Money moved, and what each move looks like: the plan moves
      min(total shortfall, total supply) in positive steps within the ceiling, from
      pool sources to the needs, and pulls from no source more than its drawable. */
  lemma {:induction false} PlanTotals(needs: seq<Need>, sources: seq<Source>, ceiling: Money)
    ensures var plan, supplies := Plan(needs, sources, ceiling), PoolSupplies(sources, ceiling);
            && TotalMoved(plan.moves) == Min(Total(Demands(needs)), Total(supplies))
            && (forall m :: m in plan.moves ==>
                  && 0 < m.amount <= ceiling && m.source in Drawables(sources)
                  && exists i :: 0 <= i < |needs| && needs[i].category == m.destination)
    ensures forall c :: c in Drawables(sources) ==>
              PulledFrom(Plan(needs, sources, ceiling).moves, c) <= Max(0, Drawables(sources)[c])
  {
    OrderedInPool(sources);
    var ordered, supplies := Ordered(sources), PoolSupplies(sources, ceiling);
    if ceiling <= 0 {
      NothingUnderNoCeiling(supplies, |supplies|);
    }
    MovesSums(needs, ordered, supplies, ceiling, |needs|);
    MovesWellMade(needs, ordered, supplies, ceiling, |needs|);
    DeliveredBeforeIs(Demands(needs), supplies, |needs|);
    forall c | c in Drawables(sources)
      ensures PulledFrom(Plan(needs, sources, ceiling).moves, c) <= Max(0, Drawables(sources)[c])
    {
      var k :| 0 <= k < |ordered| && ordered[k].category == c;
      var f := FirstOf(ordered, k);
      MovesPulled(needs, ordered, supplies, ceiling, |needs|, f);
      ColumnSumIs(Demands(needs), supplies, |needs|, f);
    }
  }

  /** When the needs ask for everything there is, every source is drained. */
  lemma {:induction false} PlanDrains(needs: seq<Need>, sources: seq<Source>, ceiling: Money, c: CategoryId)
    requires ceiling > 0 && c in Drawables(sources)
    requires Total(PoolSupplies(sources, ceiling)) <= Total(Demands(needs))
    ensures PulledFrom(Plan(needs, sources, ceiling).moves, c) == Max(0, Drawables(sources)[c])
  {
    hide PulledFrom, Before, ColumnSum, MovesBefore, UncoveredBefore;
    OrderedInPool(sources);
    var ordered, supplies := Ordered(sources), PoolSupplies(sources, ceiling);
    var k :| 0 <= k < |ordered| && ordered[k].category == c;
    var f := FirstOf(ordered, k);
    MovesPulled(needs, ordered, supplies, ceiling, |needs|, f);
    ColumnDrained(Demands(needs), supplies, f);
  }

  lemma {:induction false} MovesDeliver(
      needs: seq<Need>, ordered: seq<Source>, supplies: seq<nat>, ceiling: Money, k: nat)
    requires k <= |needs| && |ordered| == |supplies| && DistinctNeeds(needs)
    requires ceiling > 0 || Total(supplies) == 0
    ensures DeliveredTo(MovesBefore(needs, ordered, supplies, ceiling, |needs|), needs, k)
         == DeliveredBefore(Demands(needs), supplies, k)
  {
    hide MovesBefore, PaidTo, DistinctNeeds, Delivered, Total;
    if k > 0 {
      MovesDeliver(needs, ordered, supplies, ceiling, k - 1);
      PaidToNeed(needs, ordered, supplies, ceiling, |needs|, k - 1);
    }
  }

  lemma {:induction false} PlanDelivers(needs: seq<Need>, sources: seq<Source>, ceiling: Money, k: nat)
    requires k <= |needs| && DistinctNeeds(needs)
    ensures DeliveredTo(Plan(needs, sources, ceiling).moves, needs, k)
         == Min(Before(Demands(needs), k), Total(PoolSupplies(sources, ceiling)))
  {
    var supplies := PoolSupplies(sources, ceiling);
    if ceiling <= 0 {
      OrderedInPool(sources);
      NothingUnderNoCeiling(supplies, |supplies|);
    }
    MovesDeliver(needs, Ordered(sources), supplies, ceiling, k);
    DeliveredBeforeIs(Demands(needs), supplies, k);
  }

  /** The plan is itself feasible. */
  lemma {:induction false} PlanFeasible(needs: seq<Need>, sources: seq<Source>, ceiling: Money)
    requires DistinctNeeds(needs)
    ensures Feasible(Plan(needs, sources, ceiling).moves, needs, sources)
  {
    PlanTotals(needs, sources, ceiling);
    var ordered, supplies := Ordered(sources), PoolSupplies(sources, ceiling);
    if ceiling <= 0 {
      OrderedInPool(sources);
      NothingUnderNoCeiling(supplies, |supplies|);
    }
    forall i | 0 <= i < |needs|
      ensures PaidTo(Plan(needs, sources, ceiling).moves, needs[i].category) <= Max(0, needs[i].shortfall)
    {
      PaidToNeed(needs, ordered, supplies, ceiling, |needs|, i);
    }
  }

  ghost predicate Ranked(ordered: seq<Source>, c: CategoryId) {
    exists k :: 0 <= k < |ordered| && ordered[k].category == c
  }

  /** The sum, over the first `k` ranked sources, of what the moves pull from them. */
  ghost function PulledBefore(moves: seq<BudgetMove>, ordered: seq<Source>, k: nat): Money
    requires k <= |ordered|
  {
    if k == 0 then 0
    else PulledBefore(moves, ordered, k - 1)
         + if First(ordered, k - 1) then PulledFrom(moves, ordered[k - 1].category) else 0
  }

  lemma {:induction false} PulledBeforeAppend(moves: seq<BudgetMove>, m: BudgetMove, ordered: seq<Source>, k: nat)
    requires k <= |ordered|
    ensures PulledBefore(moves + [m], ordered, k) == PulledBefore(moves, ordered, k)
            + if Ranked(ordered[..k], m.source) then m.amount else 0
  {
    if k > 0 {
      PulledBeforeAppend(moves, m, ordered, k - 1);
      assert (moves + [m])[..|moves|] == moves;
      RankedOneMore(ordered, k, m.source);
    }
  }

  lemma {:induction false} RankedOneMore(ordered: seq<Source>, k: nat, c: CategoryId)
    requires 0 < k <= |ordered|
    ensures Ranked(ordered[..k], c) <==> Ranked(ordered[..k - 1], c) || ordered[k - 1].category == c
    ensures Ranked(ordered[..k - 1], ordered[k - 1].category) <==> !First(ordered, k - 1)
  {
    assert forall i :: 0 <= i < k - 1 ==> ordered[..k][i] == ordered[i] == ordered[..k - 1][i];
    assert ordered[..k][k - 1] == ordered[k - 1];
    if Ranked(ordered[..k - 1], c) {
      var i :| 0 <= i < k - 1 && ordered[..k - 1][i].category == c;
      assert ordered[..k][i].category == c;
    }
    if !First(ordered, k - 1) {
      var i :| 0 <= i < k - 1 && ordered[i].category == ordered[k - 1].category;
      assert ordered[..k - 1][i].category == ordered[k - 1].category;
    }
  }

  lemma {:induction false} PulledBeforeIsTotal(moves: seq<BudgetMove>, ordered: seq<Source>)
    requires forall m :: m in moves ==> Ranked(ordered, m.source)
    ensures PulledBefore(moves, ordered, |ordered|) == TotalMoved(moves)
  {
    if moves == [] {
      PulledBeforeNothing(ordered, |ordered|);
    } else {
      hide Ranked, PulledBefore;
      var n := |moves| - 1;
      assert forall m :: m in moves[..n] ==> m in moves;
      PulledBeforeIsTotal(moves[..n], ordered);
      PulledBeforeAppend(moves[..n], moves[n], ordered, |ordered|);
      assert moves[..n] + [moves[n]] == moves && ordered[..|ordered|] == ordered;
      assert moves[n] in moves;
    }
  }

  lemma {:induction false} PulledBeforeNothing(ordered: seq<Source>, k: nat)
    requires k <= |ordered|
    ensures PulledBefore([], ordered, k) == 0
  {
    if k > 0 {
      PulledBeforeNothing(ordered, k - 1);
    }
  }

  lemma {:induction false} PulledWithinSupply(moves: seq<BudgetMove>, sources: seq<Source>, ceiling: Money, k: nat)
    requires ceiling > 0 && k <= |sources|
    requires forall c :: c in Drawables(sources) ==> PulledFrom(moves, c) <= Max(0, Drawables(sources)[c])
    ensures PulledBefore(moves, Ordered(sources), k) <= Before(PoolSupplies(sources, ceiling), k)
  {
    hide First;
    if k > 0 {
      OrderedInPool(sources);
      PulledWithinSupply(moves, sources, ceiling, k - 1);
    }
  }

  lemma {:induction false} DeliveredAppend(moves: seq<BudgetMove>, m: BudgetMove, needs: seq<Need>, k: nat)
    requires k <= |needs| && DistinctNeeds(needs)
    ensures DeliveredTo(moves + [m], needs, k) == DeliveredTo(moves, needs, k)
            + if exists i :: 0 <= i < k && needs[i].category == m.destination then m.amount else 0
  {
    if k > 0 {
      DeliveredAppend(moves, m, needs, k - 1);
      assert (moves + [m])[..|moves|] == moves;
    }
  }

  lemma {:induction false} DeliveredWithinTotal(moves: seq<BudgetMove>, needs: seq<Need>, k: nat)
    requires k <= |needs| && DistinctNeeds(needs) && forall m :: m in moves ==> 0 < m.amount
    ensures DeliveredTo(moves, needs, k) <= TotalMoved(moves)
  {
    if moves == [] {
      DeliveredNothing(needs, k);
    } else {
      var n := |moves| - 1;
      DeliveredWithinTotal(moves[..n], needs, k);
      DeliveredAppend(moves[..n], moves[n], needs, k);
      assert moves[..n] + [moves[n]] == moves;
      assert moves[n] in moves;
    }
  }

  lemma {:induction false} DeliveredNothing(needs: seq<Need>, k: nat)
    requires k <= |needs|
    ensures DeliveredTo([], needs, k) == 0
  {
    if k > 0 {
      DeliveredNothing(needs, k - 1);
    }
  }

  lemma {:induction false} DeliveredWithinDemand(
      moves: seq<BudgetMove>, needs: seq<Need>, sources: seq<Source>, k: nat)
    requires k <= |needs| && Feasible(moves, needs, sources)
    ensures DeliveredTo(moves, needs, k) <= Before(Demands(needs), k)
  {
    if k > 0 {
      DeliveredWithinDemand(moves, needs, sources, k - 1);
    }
  }

  /** Optimal on every prefix: whatever another set of moves could deliver to the
      first `k` needs within the same funds, the plan delivers at least as much, and
      it delivers exactly min(their shortfalls, everything drawable). */
  lemma {:induction false} OptimalOnEveryPrefix(
      needs: seq<Need>, sources: seq<Source>, ceiling: Money, k: nat, other: seq<BudgetMove>)
    requires ceiling > 0 && k <= |needs| && DistinctNeeds(needs) && Feasible(other, needs, sources)
    ensures var delivered := DeliveredTo(Plan(needs, sources, ceiling).moves, needs, k);
            && delivered == Min(Before(Demands(needs), k), Total(PoolSupplies(sources, ceiling)))
            && DeliveredTo(other, needs, k) <= delivered
  {
    PlanDelivers(needs, sources, ceiling, k);
    OrderedInPool(sources);
    DeliveredWithinDemand(other, needs, sources, k);
    DeliveredWithinTotal(other, needs, k);
    PulledBeforeIsTotal(other, Ordered(sources));
    PulledWithinSupply(other, sources, ceiling, |sources|);
  }

  /** The needs with something owed, as they came. */
  ghost function Owing(needs: seq<Need>): seq<Need> {
    if needs == [] then []
    else
      var last := needs[|needs| - 1];
      Owing(needs[..|needs| - 1]) + if last.shortfall > 0 then [last] else []
  }

  /** The supply runs out inside need `t`: what it is still short of is owed, and so
      is every positive need after it, in full. */
  ghost predicate RunsOutAt(needs: seq<Need>, supplies: seq<nat>, n: nat, t: nat)
    requires t < n <= |needs|
  {
    var demands, supply := Demands(needs), Total(supplies);
    && Before(demands, t) <= supply < Before(demands, t + 1)
    && UncoveredBefore(needs, supplies, n)
       == [Need(needs[t].category, Before(demands, t + 1) - supply)] + Owing(needs[t + 1..n])
  }

  /** One more need adds to what is uncovered just what it is not delivered. */
  lemma UncoveredGrows(needs: seq<Need>, supplies: seq<nat>, n: nat)
    requires 0 < n <= |needs|
    ensures Before(Demands(needs), n) == Before(Demands(needs), n - 1) + Max(0, needs[n - 1].shortfall)
    ensures var short := Max(0, needs[n - 1].shortfall) - Delivered(Demands(needs), supplies, n - 1);
            UncoveredBefore(needs, supplies, n)
            == UncoveredBefore(needs, supplies, n - 1) + if short > 0 then [Need(needs[n - 1].category, short)] else []
  {
  }

  lemma {:induction false} RunsOutHere(needs: seq<Need>, supplies: seq<nat>, n: nat)
    requires 0 < n <= |needs| && UncoveredBefore(needs, supplies, n - 1) == []
    requires Before(Demands(needs), n - 1) <= Total(supplies) < Before(Demands(needs), n)
    ensures RunsOutAt(needs, supplies, n, n - 1)
  {
    UncoveredGrows(needs, supplies, n);
    assert needs[n..n] == [];
  }

  /** What is left uncovered: nothing when the supply reaches the total shortfall, and
      otherwise a suffix of the positive needs of which only the first is part paid. */
  lemma {:induction false} UncoveredIsTail(needs: seq<Need>, supplies: seq<nat>, n: nat)
    requires n <= |needs|
    ensures if Before(Demands(needs), n) <= Total(supplies) then UncoveredBefore(needs, supplies, n) == []
            else exists t :: 0 <= t < n && RunsOutAt(needs, supplies, n, t)
  {
    if n > 0 {
      hide Before, UncoveredBefore, RunsOutAt, Total, Demands;
      var demands, supply := Demands(needs), Total(supplies);
      UncoveredIsTail(needs, supplies, n - 1);
      UncoveredGrows(needs, supplies, n);
      if Before(demands, n) > supply {
        if Before(demands, n - 1) <= supply {
          RunsOutHere(needs, supplies, n);
          assert RunsOutAt(needs, supplies, n, n - 1);
        } else {
          var t :| 0 <= t < n - 1 && RunsOutAt(needs, supplies, n - 1, t);
          RunsOutStep(needs, supplies, n, t);
          assert RunsOutAt(needs, supplies, n, t);
        }
      }
    }
  }

  lemma {:induction false} OwingGrows(needs: seq<Need>, a: nat, n: nat)
    requires a < n <= |needs|
    ensures Owing(needs[a..n]) == Owing(needs[a..n - 1]) + if needs[n - 1].shortfall > 0 then [needs[n - 1]] else []
  {
    var tail := needs[a..n];
    assert tail[..|tail| - 1] == needs[a..n - 1];
    assert tail[|tail| - 1] == needs[n - 1];
  }

  lemma {:induction false} RunsOutStep(needs: seq<Need>, supplies: seq<nat>, n: nat, t: nat)
    requires t + 1 < n <= |needs| && RunsOutAt(needs, supplies, n - 1, t)
    ensures RunsOutAt(needs, supplies, n, t)
  {
    hide Owing, Before, UncoveredBefore, Demands, Total;
    BeforeMonotone(Demands(needs), t + 1, n - 1);
    UncoveredGrows(needs, supplies, n);
    OwingGrows(needs, t + 1, n);
    NothingDelivered(needs, supplies, n - 1);
    assert needs[n - 1] == Need(needs[n - 1].category, needs[n - 1].shortfall);
  }

  lemma NothingDelivered(needs: seq<Need>, supplies: seq<nat>, i: nat)
    requires i < |needs| && Total(supplies) <= Before(Demands(needs), i)
    ensures Delivered(Demands(needs), supplies, i) == 0
  {
  }
}
