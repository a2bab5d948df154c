/** The planner's loops, proved against the waterfall, with the order in which it
    drains its donors and the number of moves it makes. */
module Planner {
  import opened Prelude
  import opened Waterfall
  import opened Coverage
  import StableSort

  /** How far along the demand line the planner is, after offering need `i` to the
      first `j` ranked sources. */
  ghost function Position(demands: seq<nat>, supplies: seq<nat>, i: nat, j: nat): nat
    requires i < |demands| && j <= |supplies|
  {
    Min(Before(demands, i + 1), Max(Before(demands, i), Before(supplies, j)))
  }

  /** Each source holds the part of its interval that lies beyond `x`. */
  ghost predicate PoolAt(
      remaining: map<CategoryId, Money>, ordered: seq<Source>, supplies: seq<nat>, x: nat)
    requires |ordered| == |supplies|
  {
    forall k :: 0 <= k < |ordered| && First(ordered, k) ==>
      && ordered[k].category in remaining
      && Max(0, remaining[ordered[k].category]) == Max(0, Before(supplies, k + 1) - Max(x, Before(supplies, k)))
  }

  /** Everything ranked before `j` has been pulled down to nothing. */
  ghost predicate Exhausted(
      moves: seq<BudgetMove>, ordered: seq<Source>, funds: map<CategoryId, Money>, j: nat)
    requires j <= |ordered|
  {
    forall k :: 0 <= k < j && ordered[k].category in funds ==>
      PulledFrom(moves, ordered[k].category) >= funds[ordered[k].category]
  }

  ghost predicate InTurn(
      before: seq<BudgetMove>, source: CategoryId, ordered: seq<Source>, funds: map<CategoryId, Money>)
  {
    exists j :: 0 <= j < |ordered| && ordered[j].category == source && Exhausted(before, ordered, funds, j)
  }

  /** No move draws on a source while an earlier ranked one still has money. */
  ghost predicate RankDiscipline(
      moves: seq<BudgetMove>, ordered: seq<Source>, funds: map<CategoryId, Money>)
  {
    forall p :: 0 <= p < |moves| ==> InTurn(moves[..p], moves[p].source, ordered, funds)
  }

  /** Every source cheaper than `t` is drained to its drawable. */
  ghost predicate CheaperDrained(before: seq<BudgetMove>, t: Source, sources: seq<Source>) {
    forall s :: s in sources && Cheaper(s, t) ==> PulledFrom(before, s.category) >= Drawables(sources)[s.category]
  }

  ghost predicate NothingCheaper(before: seq<BudgetMove>, source: CategoryId, sources: seq<Source>) {
    exists t :: t in sources && t.category == source && CheaperDrained(before, t, sources)
  }

  /** Every move draws on a source of which no cheaper one has money left. */
  ghost predicate CheapestFirst(moves: seq<BudgetMove>, sources: seq<Source>) {
    forall p :: 0 <= p < |moves| ==> NothingCheaper(moves[..p], moves[p].source, sources)
  }

  lemma {:induction false} DrainedInOrder(before: seq<BudgetMove>, sources: seq<Source>, j: nat)
    requires j < |sources| && Exhausted(before, Ordered(sources), Drawables(sources), j)
    ensures CheaperDrained(before, Ordered(sources)[j], sources)
  {
    hide PulledFrom, Drawables;
    var ordered := Ordered(sources);
    RanksBeforeIsTotalPreorder();
    StableSort.Sorted(RanksBefore, sources);
    forall s | s in sources && Cheaper(s, ordered[j])
      ensures PulledFrom(before, s.category) >= Drawables(sources)[s.category]
    {
      StableSort.SameElements(RanksBefore, sources, s);
      var k :| 0 <= k < |ordered| && ordered[k] == s;
      assert j < k ==> RanksBefore(ordered[j], s);
      OrderedInPool(sources);
    }
  }

  /** A place in the ranking is a priority, and then a drawable. */
  lemma {:induction false} RankIsCost(moves: seq<BudgetMove>, sources: seq<Source>)
    requires RankDiscipline(moves, Ordered(sources), Drawables(sources))
    ensures CheapestFirst(moves, sources)
  {
    hide InTurn, NothingCheaper;
    forall p | 0 <= p < |moves| ensures NothingCheaper(moves[..p], moves[p].source, sources) {
      TurnIsCost(moves[..p], moves[p].source, sources);
    }
  }

  lemma {:induction false} TurnIsCost(before: seq<BudgetMove>, source: CategoryId, sources: seq<Source>)
    requires InTurn(before, source, Ordered(sources), Drawables(sources))
    ensures NothingCheaper(before, source, sources)
  {
    hide CheaperDrained, Exhausted, Drawables;
    var ordered := Ordered(sources);
    var j :| 0 <= j < |ordered| && ordered[j].category == source && Exhausted(before, ordered, Drawables(sources), j);
    DrainedInOrder(before, sources, j);
    StableSort.SameElements(RanksBefore, sources, ordered[j]);
  }

  ghost predicate DistinctSources(sources: seq<Source>) {
    forall i, j :: 0 <= i < j < |sources| ==> sources[i].category != sources[j].category
  }

  /** The pool of a category is the slack of its last source, or what that source holds when
      its slack is not known. */
  lemma {:induction false} LastDrawable(sources: seq<Source>, i: nat)
    requires i < |sources| && forall k :: i < k < |sources| ==> sources[k].category != sources[i].category
    ensures sources[i].category in Drawables(sources)
    ensures Drawables(sources)[sources[i].category]
         == match sources[i].slack
            case None => sources[i].available
            case Some(slack) => slack
  {
    if i < |sources| - 1 {
      LastDrawable(sources[..|sources| - 1], i);
    }
  }

  lemma {:induction false} OwnDrawable(sources: seq<Source>, i: nat)
    requires DistinctSources(sources) && i < |sources|
    ensures Drawables(sources)[sources[i].category] == sources[i].Drawable()
  {
    LastDrawable(sources, i);
  }

  /** With one source per category: when a move draws on `t`, every source of a cheaper
      priority, and every richer one of the same, is already down to its drawable. */
  lemma {:induction false} DearerWaits(moves: seq<BudgetMove>, sources: seq<Source>, p: nat, s: Source, t: Source)
    requires CheapestFirst(moves, sources) && DistinctSources(sources) && p < |moves|
    requires s in sources && t in sources && t.category == moves[p].source && Cheaper(s, t)
    ensures PulledFrom(moves[..p], s.category) >= s.Drawable()
  {
    assert NothingCheaper(moves[..p], moves[p].source, sources);
    var u :| u in sources && u.category == moves[p].source && CheaperDrained(moves[..p], u, sources);
    var i :| 0 <= i < |sources| && sources[i] == t;
    var j :| 0 <= j < |sources| && sources[j] == u;
    assert i == j;
    var k :| 0 <= k < |sources| && sources[k] == s;
    OwnDrawable(sources, k);
  }

  ghost predicate Accounted(
      moves: seq<BudgetMove>, remaining: map<CategoryId, Money>, funds: map<CategoryId, Money>)
  {
    && remaining.Keys == funds.Keys
    && forall c :: c in funds ==> remaining[c] == funds[c] - PulledFrom(moves, c)
  }

  ghost predicate Sized(moves: seq<BudgetMove>, ceiling: Money) {
    forall m :: m in moves ==> 0 < m.amount <= ceiling
  }

  ghost predicate NoOverdraw(remaining: map<CategoryId, Money>, funds: map<CategoryId, Money>) {
    forall c :: c in remaining && c in funds ==> Min(0, funds[c]) <= remaining[c]
  }

  /** The categories drawn down to nothing. */
  ghost function Emptied(remaining: map<CategoryId, Money>): set<CategoryId> {
    set c | c in remaining && remaining[c] <= 0
  }

  /** Every move but a full one either met a need or emptied a source. */
  ghost predicate Amortised(
      moves: seq<BudgetMove>, remaining: map<CategoryId, Money>, ceiling: Money, met: int)
  {
    |moves| <= met + |Emptied(remaining)| + FullMoves(moves, ceiling)
  }

  // ---------- one source offered to one need ----------

  function Taken(available: Money, shortfall: Money, ceiling: Money): Money {
    if ceiling <= 0 then 0 else Max(0, Min(available, shortfall))
  }

  /** Draw on one source in moves of at most the ceiling until it is drained or the
      need is met. */
  method Draw(source: CategoryId, destination: CategoryId, available: Money, shortfall: Money, ceiling: Money)
    returns (moves: seq<BudgetMove>, left: Money, short: Money)
    ensures var taken := Taken(available, shortfall, ceiling);
            && moves == Chunks(source, destination, taken, ceiling)
            && left == available - taken
            && short == shortfall - taken
  {
    moves, left, short := [], available, shortfall;
    while short > 0 && left > 0
      invariant left - available == short - shortfall
      invariant Taken(left, short, ceiling) - Taken(available, shortfall, ceiling) == left - available
      invariant moves + Chunks(source, destination, Taken(left, short, ceiling), ceiling)
             == Chunks(source, destination, Taken(available, shortfall, ceiling), ceiling)
      decreases short
    {
      var take := Min(Min(left, short), ceiling);
      if take <= 0 {
        break;
      }
      moves := moves + [BudgetMove(source, destination, take)];
      left := left - take;
      short := short - take;
    }
  }

  /** What is taken from source `j` for need `i` is the overlap of their intervals. */
  lemma {:induction false} TakenIsFlow(
      demands: seq<nat>, ordered: seq<Source>, funds: map<CategoryId, Money>, ceiling: Money,
      remaining: map<CategoryId, Money>, shortfall: Money, i: nat, j: nat)
    requires i < |demands| && j < |ordered|
    requires forall k :: 0 <= k < |ordered| ==> ordered[k].category in funds
    requires remaining.Keys == funds.Keys
    requires var supplies := Supplies(ordered, funds, ceiling);
             && Max(0, shortfall) == Before(demands, i + 1) - Position(demands, supplies, i, j)
             && (ceiling > 0 ==> PoolAt(remaining, ordered, supplies, Position(demands, supplies, i, j)))
    ensures var supplies := Supplies(ordered, funds, ceiling);
            var taken := Taken(remaining[ordered[j].category], shortfall, ceiling);
            && taken == Flow(demands, supplies, i, j)
            && Position(demands, supplies, i, j + 1) == Position(demands, supplies, i, j) + taken
  {
    var supplies := Supplies(ordered, funds, ceiling);
    if ceiling > 0 {
      var f := FirstOf(ordered, j);
      if f < j {
        BeforeMonotone(supplies, f + 1, j);
      }
    } else {
      NoSupplies(supplies, j + 1);
    }
  }

  lemma {:induction false} NoSupplies(supplies: seq<nat>, j: nat)
    requires j <= |supplies| && forall k :: 0 <= k < |supplies| ==> supplies[k] == 0
    ensures Before(supplies, j) == 0
  {
    if j > 0 {
      NoSupplies(supplies, j - 1);
    }
  }

  lemma SameFirst(ordered: seq<Source>, j: nat, k: nat)
    requires j < |ordered| && k < |ordered| && First(ordered, j) && First(ordered, k)
    ensures ordered[j].category == ordered[k].category ==> j == k
  {
  }

  lemma {:induction false} PoolAfter(
      demands: seq<nat>, ordered: seq<Source>, supplies: seq<nat>,
      remaining: map<CategoryId, Money>, taken: nat, i: nat, j: nat)
    requires i < |demands| && j < |ordered| == |supplies|
    requires ordered[j].category in remaining
    requires var x := Position(demands, supplies, i, j);
             && PoolAt(remaining, ordered, supplies, x)
             && Position(demands, supplies, i, j + 1) == x + taken
             && taken == Flow(demands, supplies, i, j)
             && (taken > 0 ==> First(ordered, j) && taken <= remaining[ordered[j].category])
    ensures PoolAt(remaining[ordered[j].category := remaining[ordered[j].category] - taken], ordered, supplies,
                   Position(demands, supplies, i, j + 1))
  {
    hide First, Flow, Overlap;
    var x := Position(demands, supplies, i, j);
    var after := remaining[ordered[j].category := remaining[ordered[j].category] - taken];
    if taken > 0 {
      forall k | 0 <= k < |ordered| && First(ordered, k)
        ensures Max(0, after[ordered[k].category])
             == Max(0, Before(supplies, k + 1) - Max(x + taken, Before(supplies, k)))
      {
        SameFirst(ordered, j, k);
        if k < j {
          BeforeMonotone(supplies, k + 1, j);
        } else if k > j {
          BeforeMonotone(supplies, j + 1, k);
        }
      }
    }
  }

  lemma {:induction false} PulledNonNegative(moves: seq<BudgetMove>, ceiling: Money, c: CategoryId)
    requires Sized(moves, ceiling)
    ensures PulledFrom(moves, c) >= 0
  {
    if moves != [] {
      assert moves[|moves| - 1] in moves;
      PulledNonNegative(moves[..|moves| - 1], ceiling, c);
    }
  }

  /** While a need is short, everything ranked before the current source is drained. */
  lemma {:induction false} EarlierExhausted(
      moves: seq<BudgetMove>, ordered: seq<Source>, supplies: seq<nat>, funds: map<CategoryId, Money>,
      remaining: map<CategoryId, Money>, x: nat, j: nat)
    requires j <= |ordered| == |supplies| && Accounted(moves, remaining, funds)
    requires PoolAt(remaining, ordered, supplies, x) && Before(supplies, j) <= x
    ensures Exhausted(moves, ordered, funds, j)
  {
    hide PulledFrom, Before, First;
    forall k | 0 <= k < j && ordered[k].category in funds
      ensures PulledFrom(moves, ordered[k].category) >= funds[ordered[k].category]
    {
      var f := FirstOf(ordered, k);
      BeforeMonotone(supplies, f + 1, j);
      assert remaining[ordered[f].category] <= 0;
    }
  }

  lemma {:induction false} DrawKeepsAccounts(
      moves: seq<BudgetMove>, remaining: map<CategoryId, Money>, funds: map<CategoryId, Money>,
      ceiling: Money, c: CategoryId, destination: CategoryId, taken: nat)
    requires Accounted(moves, remaining, funds) && Sized(moves, ceiling) && c in funds && ceiling > 0
    ensures var after := moves + Chunks(c, destination, taken, ceiling);
            && Accounted(after, remaining[c := remaining[c] - taken], funds)
            && Sized(after, ceiling)
  {
    var drawn := Chunks(c, destination, taken, ceiling);
    ChunkFacts(c, destination, taken, ceiling, c);
    forall s | s in funds
      ensures PulledFrom(moves + drawn, s) == PulledFrom(moves, s) + if s == c then taken else 0
    {
      SumsOfConcat(moves, drawn, s);
      ChunkFacts(c, destination, taken, ceiling, s);
    }
  }

  lemma {:induction false} DrawKeepsAmortised(
      moves: seq<BudgetMove>, remaining: map<CategoryId, Money>, ceiling: Money, met: int,
      c: CategoryId, destination: CategoryId, shortfall: Money)
    requires c in remaining && ceiling > 0 && shortfall > 0 && Amortised(moves, remaining, ceiling, met)
    ensures var taken := Taken(remaining[c], shortfall, ceiling);
            Amortised(moves + Chunks(c, destination, taken, ceiling), remaining[c := remaining[c] - taken],
                      ceiling, met + if shortfall <= taken then 1 else 0)
  {
    var taken := Taken(remaining[c], shortfall, ceiling);
    var drawn := Chunks(c, destination, taken, ceiling);
    var left := remaining[c := remaining[c] - taken];
    ChunkFacts(c, destination, taken, ceiling, c);
    FullMovesOfConcat(moves, drawn, ceiling);
    if taken == 0 {
      assert drawn == [] && left == remaining;
    } else if taken < shortfall {
      assert Emptied(left) == Emptied(remaining) + {c};
    } else {
      SubsetCardinality(Emptied(remaining), Emptied(left));
    }
  }

  lemma {:induction false} DrawKeepsRank(
      moves: seq<BudgetMove>, drawn: seq<BudgetMove>, ordered: seq<Source>,
      funds: map<CategoryId, Money>, ceiling: Money, j: nat)
    requires j < |ordered| && RankDiscipline(moves, ordered, funds) && Exhausted(moves, ordered, funds, j)
    requires forall m :: m in drawn ==> m.source == ordered[j].category && 0 < m.amount <= ceiling
    ensures RankDiscipline(moves + drawn, ordered, funds)
  {
    var after := moves + drawn;
    forall p | 0 <= p < |after| ensures InTurn(after[..p], after[p].source, ordered, funds) {
      if p < |moves| {
        assert after[..p] == moves[..p];
      } else {
        var part := drawn[..p - |moves|];
        assert after[..p] == moves + part;
        assert after[p] in drawn;
        PulledMore(moves, part, ordered, funds, ceiling, j);
      }
    }
  }

  lemma {:induction false} PulledMore(
      moves: seq<BudgetMove>, more: seq<BudgetMove>, ordered: seq<Source>,
      funds: map<CategoryId, Money>, ceiling: Money, j: nat)
    requires j <= |ordered| && Exhausted(moves, ordered, funds, j) && Sized(more, ceiling)
    ensures Exhausted(moves + more, ordered, funds, j)
  {
    forall k | 0 <= k < j && ordered[k].category in funds
      ensures PulledFrom(moves + more, ordered[k].category) >= funds[ordered[k].category]
    {
      SumsOfConcat(moves, more, ordered[k].category);
      PulledNonNegative(more, ceiling, ordered[k].category);
    }
  }

  lemma {:induction false} CategoryCount(sources: seq<Source>, cats: set<CategoryId>)
    requires forall c :: c in cats ==> exists i :: 0 <= i < |sources| && sources[i].category == c
    ensures |cats| <= |sources|
  {
    if sources == [] {
      assert cats == {};
    } else {
      var n := |sources| - 1;
      var c := sources[n].category;
      forall d | d in cats - {c} ensures exists i :: 0 <= i < n && sources[..n][i].category == d {
        var i :| 0 <= i < |sources| && sources[i].category == d;
        assert sources[..n][i].category == d;
      }
      CategoryCount(sources[..n], cats - {c});
    }
  }

  // ---------- one need ----------

  /** Once the need is met, the sources not yet reached pay nothing to it. */
  lemma {:induction false} RowDone(
      needs: seq<Need>, ordered: seq<Source>, supplies: seq<nat>, ceiling: Money, i: nat, j: nat, k: nat)
    requires i < |needs| && j <= k <= |ordered| == |supplies|
    requires Position(Demands(needs), supplies, i, j) == Before(Demands(needs), i + 1)
    ensures RowMoves(needs, ordered, supplies, ceiling, i, k) == RowMoves(needs, ordered, supplies, ceiling, i, j)
    ensures Position(Demands(needs), supplies, i, k) == Before(Demands(needs), i + 1)
  {
    if j < k {
      RowDone(needs, ordered, supplies, ceiling, i, j, k - 1);
      BeforeMonotone(supplies, k - 1, k);
      BeforeMonotone(Demands(needs), i, i + 1);
      assert Before(Demands(needs), i + 1) <= Max(Before(Demands(needs), i), Before(supplies, k - 1));
      assert Flow(Demands(needs), supplies, i, k - 1) == 0;
    }
  }

  /** A pool drained past its end is drained at any later point. */
  lemma {:induction false} PoolAdvance(
      remaining: map<CategoryId, Money>, ordered: seq<Source>, supplies: seq<nat>, x: nat, y: nat)
    requires |ordered| == |supplies| && PoolAt(remaining, ordered, supplies, x)
    requires Before(supplies, |supplies|) <= x <= y
    ensures PoolAt(remaining, ordered, supplies, y)
  {
    forall k | 0 <= k < |ordered| && First(ordered, k)
      ensures Before(supplies, k + 1) <= x
    {
      BeforeMonotone(supplies, k + 1, |supplies|);
    }
  }

  // ---------- the planner ----------

  /** What holds once `moves` have been made, wherever the loops are. */
  ghost predicate Orderly(
      moves: seq<BudgetMove>, remaining: map<CategoryId, Money>, ordered: seq<Source>,
      funds: map<CategoryId, Money>, ceiling: Money, met: int)
  {
    && remaining.Keys == funds.Keys
    && Accounted(moves, remaining, funds)
    && Sized(moves, ceiling)
    && RankDiscipline(moves, ordered, funds)
    && Amortised(moves, remaining, ceiling, met)
    && NoOverdraw(remaining, funds)
  }

  lemma {:induction false} OrderlyStep(
      demands: seq<nat>, ordered: seq<Source>, funds: map<CategoryId, Money>, ceiling: Money,
      moves: seq<BudgetMove>, remaining: map<CategoryId, Money>, met: int,
      i: nat, j: nat, destination: CategoryId, shortfall: Money)
    requires i < |demands| && j < |ordered| && shortfall > 0
    requires forall k :: 0 <= k < |ordered| ==> ordered[k].category in funds
    requires Orderly(moves, remaining, ordered, funds, ceiling, met)
    requires var supplies := Supplies(ordered, funds, ceiling);
             && shortfall == Before(demands, i + 1) - Position(demands, supplies, i, j)
             && (ceiling > 0 ==> PoolAt(remaining, ordered, supplies, Position(demands, supplies, i, j)))
    ensures var c := ordered[j].category;
            var taken := Taken(remaining[c], shortfall, ceiling);
            Orderly(moves + Chunks(c, destination, taken, ceiling), remaining[c := remaining[c] - taken],
                    ordered, funds, ceiling, met + if shortfall <= taken then 1 else 0)
  {
    hide Accounted, Sized, RankDiscipline, Amortised, PoolAt, Exhausted, First;
    var c := ordered[j].category;
    var taken := Taken(remaining[c], shortfall, ceiling);
    if ceiling > 0 {
      var supplies := Supplies(ordered, funds, ceiling);
      EarlierExhausted(moves, ordered, supplies, funds, remaining, Position(demands, supplies, i, j), j);
      DrawKeepsAccounts(moves, remaining, funds, ceiling, c, destination, taken);
      DrawKeepsAmortised(moves, remaining, ceiling, met, c, destination, shortfall);
      ChunkFacts(c, destination, taken, ceiling, c);
      DrawKeepsRank(moves, Chunks(c, destination, taken, ceiling), ordered, funds, ceiling, j);
    } else {
      assert moves + Chunks(c, destination, taken, ceiling) == moves;
      assert remaining[c := remaining[c] - taken] == remaining;
    }
  }

  /** Before any move, every source holds its whole interval. */
  lemma {:induction false} Untouched(
      needs: seq<Need>, ordered: seq<Source>, funds: map<CategoryId, Money>, ceiling: Money)
    requires forall k :: 0 <= k < |ordered| ==> ordered[k].category in funds
    ensures Orderly([], funds, ordered, funds, ceiling, 0)
    ensures ceiling > 0 ==>
              PoolAt(funds, ordered, Supplies(ordered, funds, ceiling), Before(Demands(needs), 0))
    ensures MovesBefore(needs, ordered, Supplies(ordered, funds, ceiling), ceiling, 0) == []
    ensures UncoveredBefore(needs, Supplies(ordered, funds, ceiling), 0) == []
  {
  }

  lemma {:induction false} OrderlyResult(
      moves: seq<BudgetMove>, remaining: map<CategoryId, Money>, ordered: seq<Source>,
      funds: map<CategoryId, Money>, ceiling: Money, met: int)
    requires Orderly(moves, remaining, ordered, funds, ceiling, met)
    requires forall c :: c in funds ==> exists k :: 0 <= k < |ordered| && ordered[k].category == c
    ensures RankDiscipline(moves, ordered, funds) && Sized(moves, ceiling)
    ensures forall c :: c in funds ==> PulledFrom(moves, c) <= Max(0, funds[c])
    ensures if ceiling > 0 then |moves| <= met + |ordered| + TotalMoved(moves) / ceiling else moves == []
  {
    CategoryCount(ordered, Emptied(remaining));
    if moves != [] {
      SizedNeedsCeiling(moves, ceiling);
    }
    if ceiling > 0 {
      FullMovesCost(moves, ceiling);
    }
  }

  lemma SizedNeedsCeiling(moves: seq<BudgetMove>, ceiling: Money)
    requires Sized(moves, ceiling) && moves != []
    ensures ceiling > 0
  {
    assert moves[0] in moves;
  }

  lemma PlanIs(needs: seq<Need>, sources: seq<Source>, ceiling: Money)
    ensures (OrderedInPool(sources);
             var supplies := Supplies(Ordered(sources), Drawables(sources), ceiling);
             Plan(needs, sources, ceiling) ==
             CoveragePlan(MovesBefore(needs, Ordered(sources), supplies, ceiling, |needs|),
                          UncoveredBefore(needs, supplies, |needs|)))
  {
  }

  /** Where the planner stands after offering need `i` to the first `j` sources. */
  ghost predicate Offered(
      needs: seq<Need>, ordered: seq<Source>, funds: map<CategoryId, Money>, ceiling: Money, i: nat, j: nat,
      moves: seq<BudgetMove>, remaining: map<CategoryId, Money>, shortfall: Money)
    requires i < |needs| && j <= |ordered| && forall k :: 0 <= k < |ordered| ==> ordered[k].category in funds
  {
    var demands, supplies := Demands(needs), Supplies(ordered, funds, ceiling);
    && moves == MovesBefore(needs, ordered, supplies, ceiling, i) + RowMoves(needs, ordered, supplies, ceiling, i, j)
    && Max(0, shortfall) == Before(demands, i + 1) - Position(demands, supplies, i, j)
    && (ceiling > 0 ==> PoolAt(remaining, ordered, supplies, Position(demands, supplies, i, j)))
    && Orderly(moves, remaining, ordered, funds, ceiling, i + if shortfall <= 0 then 1 else 0)
  }

  lemma {:induction false} OfferStep(
      needs: seq<Need>, ordered: seq<Source>, funds: map<CategoryId, Money>, ceiling: Money, i: nat, j: nat,
      moves: seq<BudgetMove>, remaining: map<CategoryId, Money>, shortfall: Money)
    requires i < |needs| && j < |ordered| && forall k :: 0 <= k < |ordered| ==> ordered[k].category in funds
    requires shortfall > 0 && Offered(needs, ordered, funds, ceiling, i, j, moves, remaining, shortfall)
    ensures ordered[j].category in remaining
    ensures var c := ordered[j].category;
            var taken := Taken(remaining[c], shortfall, ceiling);
            Offered(needs, ordered, funds, ceiling, i, j + 1,
                    moves + Chunks(c, needs[i].category, taken, ceiling),
                    remaining[c := remaining[c] - taken], shortfall - taken)
  {
    hide Accounted, Sized, RankDiscipline, Amortised, PoolAt, First, NoOverdraw, Chunks, Before, Flow;
    var demands, supplies := Demands(needs), Supplies(ordered, funds, ceiling);
    var c := ordered[j].category;
    TakenIsFlow(demands, ordered, funds, ceiling, remaining, shortfall, i, j);
    OrderlyStep(demands, ordered, funds, ceiling, moves, remaining, i, i, j, needs[i].category, shortfall);
    var taken := Taken(remaining[c], shortfall, ceiling);
    if ceiling > 0 {
      TakenOnlyFromFirst(ordered, funds, ceiling, demands, i, j);
      PoolAfter(demands, ordered, supplies, remaining, taken, i, j);
    }
    var row := RowMoves(needs, ordered, supplies, ceiling, i, j);
    var drawn := Chunks(c, needs[i].category, taken, ceiling);
    assert MovesBefore(needs, ordered, supplies, ceiling, i) + row + drawn
        == MovesBefore(needs, ordered, supplies, ceiling, i) + (row + drawn);
  }

  lemma TakenOnlyFromFirst(
      ordered: seq<Source>, funds: map<CategoryId, Money>, ceiling: Money, demands: seq<nat>, i: nat, j: nat)
    requires i < |demands| && j < |ordered| && forall k :: 0 <= k < |ordered| ==> ordered[k].category in funds
    ensures Flow(demands, Supplies(ordered, funds, ceiling), i, j) > 0 ==> First(ordered, j)
  {
  }

  lemma {:induction false} OfferDone(
      needs: seq<Need>, ordered: seq<Source>, funds: map<CategoryId, Money>, ceiling: Money, i: nat, j: nat,
      moves: seq<BudgetMove>, remaining: map<CategoryId, Money>, shortfall: Money)
    requires i < |needs| && j <= |ordered| && forall k :: 0 <= k < |ordered| ==> ordered[k].category in funds
    requires j == |ordered| || shortfall <= 0
    requires Offered(needs, ordered, funds, ceiling, i, j, moves, remaining, shortfall)
    ensures var demands, supplies := Demands(needs), Supplies(ordered, funds, ceiling);
            && moves == MovesBefore(needs, ordered, supplies, ceiling, i + 1)
            && UncoveredBefore(needs, supplies, i + 1) == UncoveredBefore(needs, supplies, i)
               + (if shortfall > 0 then [Need(needs[i].category, shortfall)] else [])
            && (ceiling > 0 ==> PoolAt(remaining, ordered, supplies, Before(demands, i + 1)))
            && Orderly(moves, remaining, ordered, funds, ceiling, i + 1)
  {
    hide Accounted, Sized, RankDiscipline, PoolAt, First, NoOverdraw;
    var demands, supplies := Demands(needs), Supplies(ordered, funds, ceiling);
    if shortfall <= 0 {
      RowDone(needs, ordered, supplies, ceiling, i, j, |ordered|);
    } else if ceiling > 0 {
      PoolAdvance(remaining, ordered, supplies, Position(demands, supplies, i, j), Before(demands, i + 1));
    }
  }

  lemma OfferStart(
      needs: seq<Need>, ordered: seq<Source>, funds: map<CategoryId, Money>, ceiling: Money, i: nat,
      moves: seq<BudgetMove>, remaining: map<CategoryId, Money>)
    requires i < |needs| && forall k :: 0 <= k < |ordered| ==> ordered[k].category in funds
    requires Orderly(moves, remaining, ordered, funds, ceiling, i)
    requires moves == MovesBefore(needs, ordered, Supplies(ordered, funds, ceiling), ceiling, i)
    requires ceiling > 0 ==>
               PoolAt(remaining, ordered, Supplies(ordered, funds, ceiling), Before(Demands(needs), i))
    ensures Offered(needs, ordered, funds, ceiling, i, 0, moves, remaining, needs[i].shortfall)
  {
    hide Accounted, Sized, RankDiscipline, PoolAt, First, NoOverdraw;
  }

  /** Offer one need to the ranked sources, cheapest first, until it is met. */
  method CoverNeed(
      needs: seq<Need>, i: nat, ordered: seq<Source>, remaining: map<CategoryId, Money>, ceiling: Money,
      moves: seq<BudgetMove>, ghost funds: map<CategoryId, Money>)
    returns (left: map<CategoryId, Money>, made: seq<BudgetMove>, shortfall: Money)
    requires i < |needs| && forall k :: 0 <= k < |ordered| ==> ordered[k].category in funds
    requires Orderly(moves, remaining, ordered, funds, ceiling, i)
    requires moves == MovesBefore(needs, ordered, Supplies(ordered, funds, ceiling), ceiling, i)
    requires ceiling > 0 ==>
               PoolAt(remaining, ordered, Supplies(ordered, funds, ceiling), Before(Demands(needs), i))
    ensures made == MovesBefore(needs, ordered, Supplies(ordered, funds, ceiling), ceiling, i + 1)
    ensures UncoveredBefore(needs, Supplies(ordered, funds, ceiling), i + 1)
         == UncoveredBefore(needs, Supplies(ordered, funds, ceiling), i)
            + if shortfall > 0 then [Need(needs[i].category, shortfall)] else []
    ensures ceiling > 0 ==> PoolAt(left, ordered, Supplies(ordered, funds, ceiling), Before(Demands(needs), i + 1))
    ensures Orderly(made, left, ordered, funds, ceiling, i + 1)
  {
    hide *;
    left, made, shortfall := remaining, moves, needs[i].shortfall;
    var j := 0;
    OfferStart(needs, ordered, funds, ceiling, i, moves, remaining);
    while j < |ordered| && shortfall > 0
      invariant j <= |ordered|
      invariant Offered(needs, ordered, funds, ceiling, i, j, made, left, shortfall)
    {
      OfferStep(needs, ordered, funds, ceiling, i, j, made, left, shortfall);
      var source := ordered[j].category;
      var drawn, rest, short := Draw(source, needs[i].category, left[source], shortfall, ceiling);
      made, left, shortfall, j := made + drawn, left[source := rest], short, j + 1;
    }
    OfferDone(needs, ordered, funds, ceiling, i, j, made, left, shortfall);
  }

  /** The plan is the waterfall's; no donor is touched before every cheaper one, by
      priority and then by larger drawable, is drained; every move is positive and within
      the ceiling; no source gives more than its drawable; and the number of moves is
      bounded by needs, sources and money moved. */
  method PlanCoverage(needs: seq<Need>, sources: seq<Source>, ceiling: Money) returns (plan: CoveragePlan)
    ensures plan == Plan(needs, sources, ceiling)
    ensures CheapestFirst(plan.moves, sources)
    ensures RankDiscipline(plan.moves, Ordered(sources), Drawables(sources))
    ensures Sized(plan.moves, ceiling)
    ensures forall c :: c in Drawables(sources) ==> PulledFrom(plan.moves, c) <= Max(0, Drawables(sources)[c])
    ensures if ceiling > 0 then |plan.moves| <= |needs| + |sources| + TotalMoved(plan.moves) / ceiling
            else plan.moves == []
  {
    hide *;
    var remaining := Drawables(sources);
    var ordered := Ordered(sources);
    OrderedInPool(sources);
    var moves: seq<BudgetMove>, uncovered: seq<Need> := [], [];
    ghost var funds := remaining;
    ghost var supplies := Supplies(ordered, funds, ceiling);
    Untouched(needs, ordered, funds, ceiling);
    for i := 0 to |needs|
      invariant moves == MovesBefore(needs, ordered, supplies, ceiling, i)
      invariant uncovered == UncoveredBefore(needs, supplies, i)
      invariant ceiling > 0 ==> PoolAt(remaining, ordered, supplies, Before(Demands(needs), i))
      invariant Orderly(moves, remaining, ordered, funds, ceiling, i)
    {
      var shortfall;
      remaining, moves, shortfall := CoverNeed(needs, i, ordered, remaining, ceiling, moves, funds);
      if shortfall > 0 {
        uncovered := uncovered + [Need(needs[i].category, shortfall)];
      }
    }
    plan := CoveragePlan(moves, uncovered);
    OrderlyResult(moves, remaining, ordered, funds, ceiling, |needs|);
    RankIsCost(moves, sources);
    PlanIs(needs, sources, ceiling);
  }

  // ---------- the order of the reference plan ----------

  lemma {:induction false} NeedRuns(
      needs: seq<Need>, ordered: seq<Source>, funds: map<CategoryId, Money>, ceiling: Money, i: nat, j: nat,
      moves: seq<BudgetMove>, remaining: map<CategoryId, Money>, shortfall: Money)
    returns (left: map<CategoryId, Money>)
    requires i < |needs| && j <= |ordered| && forall k :: 0 <= k < |ordered| ==> ordered[k].category in funds
    requires Offered(needs, ordered, funds, ceiling, i, j, moves, remaining, shortfall)
    ensures var supplies := Supplies(ordered, funds, ceiling);
            && Orderly(MovesBefore(needs, ordered, supplies, ceiling, i + 1), left, ordered, funds, ceiling, i + 1)
            && (ceiling > 0 ==> PoolAt(left, ordered, supplies, Before(Demands(needs), i + 1)))
    decreases |ordered| - j
  {
    hide *;
    if j == |ordered| || shortfall <= 0 {
      OfferDone(needs, ordered, funds, ceiling, i, j, moves, remaining, shortfall);
      left := remaining;
    } else {
      OfferStep(needs, ordered, funds, ceiling, i, j, moves, remaining, shortfall);
      var c := ordered[j].category;
      var taken := Taken(remaining[c], shortfall, ceiling);
      left := NeedRuns(needs, ordered, funds, ceiling, i, j + 1, moves + Chunks(c, needs[i].category, taken, ceiling),
                       remaining[c := remaining[c] - taken], shortfall - taken);
    }
  }

  lemma {:induction false} NeedsRun(
      needs: seq<Need>, ordered: seq<Source>, funds: map<CategoryId, Money>, ceiling: Money, i: nat)
    returns (left: map<CategoryId, Money>)
    requires i <= |needs| && forall k :: 0 <= k < |ordered| ==> ordered[k].category in funds
    ensures var supplies := Supplies(ordered, funds, ceiling);
            && Orderly(MovesBefore(needs, ordered, supplies, ceiling, i), left, ordered, funds, ceiling, i)
            && (ceiling > 0 ==> PoolAt(left, ordered, supplies, Before(Demands(needs), i)))
  {
    hide *;
    if i == 0 {
      Untouched(needs, ordered, funds, ceiling);
      left := funds;
    } else {
      var remaining := NeedsRun(needs, ordered, funds, ceiling, i - 1);
      var moves := MovesBefore(needs, ordered, Supplies(ordered, funds, ceiling), ceiling, i - 1);
      OfferStart(needs, ordered, funds, ceiling, i - 1, moves, remaining);
      left := NeedRuns(needs, ordered, funds, ceiling, i - 1, 0, moves, remaining, needs[i - 1].shortfall);
    }
  }

  /** The reference plan draws on the cheapest first, in moves within the ceiling, and pulls
      from no source more than its drawable. */
  lemma {:induction false} PlanIsCheapestFirst(needs: seq<Need>, sources: seq<Source>, ceiling: Money)
    ensures var moves := Plan(needs, sources, ceiling).moves;
            && CheapestFirst(moves, sources) && Sized(moves, ceiling)
            && forall c :: c in Drawables(sources) ==> PulledFrom(moves, c) <= Max(0, Drawables(sources)[c])
  {
    hide *;
    var ordered, funds := Ordered(sources), Drawables(sources);
    OrderedInPool(sources);
    PlanIs(needs, sources, ceiling);
    var left := NeedsRun(needs, ordered, funds, ceiling, |needs|);
    OrderlyResult(Plan(needs, sources, ceiling).moves, left, ordered, funds, ceiling, |needs|);
    RankIsCost(Plan(needs, sources, ceiling).moves, sources);
  }
}
