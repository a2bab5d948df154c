/** The greedy coverage planner: drain ranked sources, in moves no larger than the
    floor's ceiling, into needs taken in the order given. */
module Coverage {
  import opened Prelude
  import opened Waterfall
  import StableSort

  datatype SourcePriority = ReadyToAssign | Buffer | Overfunded {
    function Rank(): nat {
      match this
      case ReadyToAssign => 0
      case Buffer => 1
      case Overfunded => 2
    }
  }

  datatype Need = Need(category: CategoryId, shortfall: Money)

  datatype Source = Source(
    category: CategoryId,
    available: Money,
    priority: SourcePriority,
    slack: Option<Money>,
    projection: Money)
  {
    function Drawable(): Money { slack.GetOr(available) }
  }

  datatype BudgetMove = BudgetMove(source: CategoryId, destination: CategoryId, amount: Money)

  datatype CoveragePlan = CoveragePlan(moves: seq<BudgetMove>, uncovered: seq<Need>)

  // ---------- totals over a list of moves ----------

  function TotalMoved(moves: seq<BudgetMove>): Money {
    if moves == [] then 0 else TotalMoved(moves[..|moves| - 1]) + moves[|moves| - 1].amount
  }

  function PulledFrom(moves: seq<BudgetMove>, source: CategoryId): Money {
    if moves == [] then 0
    else
      var m := moves[|moves| - 1];
      PulledFrom(moves[..|moves| - 1], source) + if m.source == source then m.amount else 0
  }

  function PaidTo(moves: seq<BudgetMove>, destination: CategoryId): Money {
    if moves == [] then 0
    else
      var m := moves[|moves| - 1];
      PaidTo(moves[..|moves| - 1], destination) + if m.destination == destination then m.amount else 0
  }

  lemma NoMoves(c: CategoryId)
    ensures TotalMoved([]) == PulledFrom([], c) == PaidTo([], c) == 0
  {
  }

  lemma {:induction false} SumsOfConcat(a: seq<BudgetMove>, b: seq<BudgetMove>, c: CategoryId)
    ensures TotalMoved(a + b) == TotalMoved(a) + TotalMoved(b)
    ensures PulledFrom(a + b, c) == PulledFrom(a, c) + PulledFrom(b, c)
    ensures PaidTo(a + b, c) == PaidTo(a, c) + PaidTo(b, c)
  {
    if b == [] {
      assert a + b == a;
    } else {
      var n := |b| - 1;
      assert (a + b)[..|a + b| - 1] == a + b[..n];
      SumsOfConcat(a, b[..n], c);
    }
  }

  // ---------- the pool ----------

  predicate RanksBefore(a: Source, b: Source) {
    a.priority.Rank() < b.priority.Rank()
    || (a.priority == b.priority && a.Drawable() >= b.Drawable())
  }

  lemma RanksBeforeIsTotalPreorder()
    ensures StableSort.TotalPreorder(RanksBefore)
  {
  }

  /** `a` comes before `b`: a cheaper priority class, or the richer of one class. */
  predicate Cheaper(a: Source, b: Source) {
    a.priority.Rank() < b.priority.Rank() || (a.priority == b.priority && a.Drawable() > b.Drawable())
  }

  function Ordered(sources: seq<Source>): (r: seq<Source>)
    ensures |r| == |sources| && multiset(r) == multiset(sources)
  {
    StableSort.Sort(RanksBefore, sources)
  }

  /** The planner's starting `remaining` map; the last source of a category wins. */
  function Drawables(sources: seq<Source>): (r: map<CategoryId, Money>)
    ensures forall c :: c in r <==> exists i :: 0 <= i < |sources| && sources[i].category == c
  {
    if sources == [] then map[]
    else
      var s := sources[|sources| - 1];
      Drawables(sources[..|sources| - 1])[s.category := s.Drawable()]
  }

  /** `ordered[k]` is the first ranked source of its category: the one that is drained. */
  ghost predicate First(ordered: seq<Source>, k: nat)
    requires k < |ordered|
  {
    forall i :: 0 <= i < k ==> ordered[i].category != ordered[k].category
  }

  /** The first ranked source of the category of `ordered[k]`. */
  lemma {:induction false} FirstOf(ordered: seq<Source>, k: nat) returns (f: nat)
    requires k < |ordered|
    ensures f <= k && First(ordered, f) && ordered[f].category == ordered[k].category
  {
    if First(ordered, k) {
      f := k;
    } else {
      var i :| 0 <= i < k && ordered[i].category == ordered[k].category;
      f := FirstOf(ordered, i);
    }
  }

  /** What each ranked source can give: nothing when the ceiling admits no move, when
      its category was already ranked, or when its funds are not positive. */
  ghost function Supplies(ordered: seq<Source>, funds: map<CategoryId, Money>, ceiling: Money): (r: seq<nat>)
    requires forall k :: 0 <= k < |ordered| ==> ordered[k].category in funds
    ensures |r| == |ordered|
    ensures forall k :: 0 <= k < |ordered| ==>
              r[k] == if ceiling > 0 && First(ordered, k) then Max(0, funds[ordered[k].category]) else 0
  {
    seq(|ordered|, k requires 0 <= k < |ordered| =>
      if ceiling > 0 && First(ordered, k) then Max(0, funds[ordered[k].category]) else 0)
  }

  ghost function PoolSupplies(sources: seq<Source>, ceiling: Money): (r: seq<nat>)
    ensures |r| == |sources|
  {
    OrderedInPool(sources);
    Supplies(Ordered(sources), Drawables(sources), ceiling)
  }

  lemma {:induction false} OrderedInPool(sources: seq<Source>)
    ensures forall k :: 0 <= k < |sources| ==> Ordered(sources)[k].category in Drawables(sources)
    ensures forall c :: c in Drawables(sources) ==> exists k :: 0 <= k < |sources| && Ordered(sources)[k].category == c
  {
    var ordered := Ordered(sources);
    forall k | 0 <= k < |sources| ensures ordered[k].category in Drawables(sources) {
      StableSort.SameElements(RanksBefore, sources, ordered[k]);
    }
    forall c | c in Drawables(sources) ensures exists k :: 0 <= k < |sources| && ordered[k].category == c {
      var i :| 0 <= i < |sources| && sources[i].category == c;
      StableSort.SameElements(RanksBefore, sources, sources[i]);
    }
  }

  ghost function Demands(needs: seq<Need>): (r: seq<nat>)
    ensures |r| == |needs|
  {
    seq(|needs|, i requires 0 <= i < |needs| => Max(0, needs[i].shortfall))
  }

  // ---------- the plan, read off the waterfall ----------

  /** `amount` in moves of `ceiling` each, the last one smaller. */
  ghost function Chunks(source: CategoryId, destination: CategoryId, amount: Money, ceiling: Money): seq<BudgetMove>
    decreases amount
  {
    if amount <= 0 || ceiling <= 0 then []
    else
      var take := Min(amount, ceiling);
      [BudgetMove(source, destination, take)] + Chunks(source, destination, amount - take, ceiling)
  }

  /** The moves that pay need `i` from the first `j` ranked sources. */
  ghost function RowMoves(
      needs: seq<Need>, ordered: seq<Source>, supplies: seq<nat>, ceiling: Money, i: nat, j: nat): seq<BudgetMove>
    requires i < |needs| && j <= |ordered| == |supplies|
  {
    if j == 0 then []
    else
      RowMoves(needs, ordered, supplies, ceiling, i, j - 1)
      + Chunks(ordered[j - 1].category, needs[i].category, Flow(Demands(needs), supplies, i, j - 1), ceiling)
  }

  /** The moves that pay the first `i` needs. */
  ghost function MovesBefore(
      needs: seq<Need>, ordered: seq<Source>, supplies: seq<nat>, ceiling: Money, i: nat): seq<BudgetMove>
    requires i <= |needs| && |ordered| == |supplies|
  {
    if i == 0 then []
    else
      MovesBefore(needs, ordered, supplies, ceiling, i - 1)
      + RowMoves(needs, ordered, supplies, ceiling, i - 1, |ordered|)
  }

  /** What is still owed on the first `i` needs. */
  ghost function UncoveredBefore(needs: seq<Need>, supplies: seq<nat>, i: nat): seq<Need>
    requires i <= |needs|
  {
    if i == 0 then []
    else
      var owed := Demands(needs)[i - 1] - Delivered(Demands(needs), supplies, i - 1);
      UncoveredBefore(needs, supplies, i - 1) + if owed > 0 then [Need(needs[i - 1].category, owed)] else []
  }

  ghost function Plan(needs: seq<Need>, sources: seq<Source>, ceiling: Money): CoveragePlan {
    var supplies := PoolSupplies(sources, ceiling);
    CoveragePlan(MovesBefore(needs, Ordered(sources), supplies, ceiling, |needs|),
                 UncoveredBefore(needs, supplies, |needs|))
  }

  // ---------- chunks ----------

  /** Moves of exactly the ceiling. */
  ghost function FullMoves(moves: seq<BudgetMove>, ceiling: Money): nat {
    if moves == [] then 0
    else FullMoves(moves[..|moves| - 1], ceiling) + if moves[|moves| - 1].amount == ceiling then 1 else 0
  }

  lemma {:induction false} FullMovesOfConcat(a: seq<BudgetMove>, b: seq<BudgetMove>, ceiling: Money)
    ensures FullMoves(a + b, ceiling) == FullMoves(a, ceiling) + FullMoves(b, ceiling)
  {
    if b == [] {
      assert a + b == a;
    } else {
      var n := |b| - 1;
      assert (a + b)[..|a + b| - 1] == a + b[..n];
      FullMovesOfConcat(a, b[..n], ceiling);
    }
  }

  ghost predicate ChunkTotals(
      moves: seq<BudgetMove>, source: CategoryId, destination: CategoryId, amount: nat, ceiling: Money, c: CategoryId)
  {
    && TotalMoved(moves) == amount
    && PulledFrom(moves, c) == (if c == source then amount else 0)
    && PaidTo(moves, c) == (if c == destination then amount else 0)
    && (forall m :: m in moves ==> m.source == source && m.destination == destination && 0 < m.amount <= ceiling)
    && |moves| <= FullMoves(moves, ceiling) + 1
  }

  lemma {:induction false} ChunkFacts(
      source: CategoryId, destination: CategoryId, amount: nat, ceiling: Money, c: CategoryId)
    requires ceiling > 0 || amount == 0
    ensures ChunkTotals(Chunks(source, destination, amount, ceiling), source, destination, amount, ceiling, c)
    decreases amount
  {
    if amount > 0 {
      var take := Min(amount, ceiling);
      var head := [BudgetMove(source, destination, take)];
      var rest := Chunks(source, destination, amount - take, ceiling);
      ChunkFacts(source, destination, amount - take, ceiling, c);
      SumsOfConcat(head, rest, c);
      FullMovesOfConcat(head, rest, ceiling);
      assert head[..0] == [];
    }
  }

  /** Full moves account for their ceiling each. */
  lemma {:induction false} FullMovesCost(moves: seq<BudgetMove>, ceiling: Money)
    requires ceiling > 0 && forall m :: m in moves ==> 0 < m.amount <= ceiling
    ensures FullMoves(moves, ceiling) <= TotalMoved(moves) / ceiling
  {
    FullMovesWeigh(moves, ceiling);
    Quotient(FullMoves(moves, ceiling), TotalMoved(moves), ceiling);
  }

  lemma Quotient(n: nat, total: int, ceiling: int)
    requires ceiling > 0 && ceiling * n <= total
    ensures n <= total / ceiling
  {
    assert total < ceiling * (total / ceiling + 1);
    assert ceiling * n < ceiling * (total / ceiling + 1);
  }

  lemma {:induction false} FullMovesWeigh(moves: seq<BudgetMove>, ceiling: Money)
    requires ceiling > 0 && forall m :: m in moves ==> 0 < m.amount <= ceiling
    ensures ceiling * FullMoves(moves, ceiling) <= TotalMoved(moves)
  {
    if moves != [] {
      var front := moves[..|moves| - 1];
      FullMovesWeigh(front, ceiling);
      assert moves[|moves| - 1] in moves;
      assert ceiling * (FullMoves(front, ceiling) + 1) == ceiling * FullMoves(front, ceiling) + ceiling;
    }
  }
}
