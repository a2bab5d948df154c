/** The coordinated offer: needs, donors and plan from one read of the budget, and the order
    in which the plan draws on the donors, by category and slack. */
module Proposal {
  import opened Prelude
  import opened Overspend
  import opened Coverage
  import opened Planner
  import opened Donors
  import Floor

  /** The moves of the coordinated plan over the donors of the budget. */
  ghost function Moves(
      needs: seq<Need>, spends: seq<CategorySpend>, readyToAssign: Money, exclude: set<CategoryId>,
      clock: MonthClock, ceiling: Money): seq<BudgetMove>
    requires clock.Valid()
  {
    Plan(needs, DonorPool(spends, readyToAssign, exclude, clock), ceiling).moves
  }

  // ---------- the pool as a set of donors ----------

  ghost predicate ReadySource(s: Source, readyToAssign: Money) {
    s.category == READY_TO_ASSIGN && s.priority.Rank() == 0 && s.Drawable() == readyToAssign > 0
  }

  ghost predicate DonorSource(s: Source, spend: CategorySpend, exclude: set<CategoryId>, clock: MonthClock)
    requires clock.Valid()
  {
    && s.category == spend.category && s.priority.Rank() == 2 && s.Drawable() == DonorSlack(spend, clock).0 > 0
    && spend.category !in exclude
  }

  lemma {:induction false} DonorsAre(
      spends: seq<CategorySpend>, exclude: set<CategoryId>, clock: MonthClock, s: Source)
    requires clock.Valid() && s in DonorSources(spends, exclude, clock)
    ensures exists i :: 0 <= i < |spends| && DonorSource(s, spends[i], exclude, clock)
  {
    hide DonorSlack;
    var front, last := spends[..|spends| - 1], spends[|spends| - 1];
    if s in DonorSources(front, exclude, clock) {
      DonorsAre(front, exclude, clock, s);
      var i :| 0 <= i < |front| && DonorSource(s, front[i], exclude, clock);
      assert spends[i] == front[i];
    } else {
      assert DonorSource(s, last, exclude, clock);
    }
  }

  /** What the pool holds: the positive Ready-to-Assign, of the best rank, and categories
      with slack that are not excluded, all of one rank. */
  lemma {:induction false} PoolIs(
      spends: seq<CategorySpend>, readyToAssign: Money, exclude: set<CategoryId>, clock: MonthClock, s: Source)
    requires clock.Valid() && s in DonorPool(spends, readyToAssign, exclude, clock)
    ensures ReadySource(s, readyToAssign)
            || exists i :: 0 <= i < |spends| && DonorSource(s, spends[i], exclude, clock)
  {
    hide DonorSlack, DonorSources;
    if s in DonorSources(spends, exclude, clock) {
      DonorsAre(spends, exclude, clock, s);
    }
  }

  lemma {:induction false} DonorsHave(
      spends: seq<CategorySpend>, exclude: set<CategoryId>, clock: MonthClock, i: nat)
    requires clock.Valid() && i < |spends| && spends[i].category !in exclude && DonorSlack(spends[i], clock).0 > 0
    ensures exists s :: s in DonorSources(spends, exclude, clock) && DonorSource(s, spends[i], exclude, clock)
  {
    hide DonorSlack;
    if i == |spends| - 1 {
      var (slack, projection) := DonorSlack(spends[i], clock);
      var s := Source(spends[i].category, spends[i].balance, Overfunded, Some(slack), projection);
      assert s in DonorSources(spends, exclude, clock) && DonorSource(s, spends[i], exclude, clock);
    } else {
      DonorsHave(spends[..|spends| - 1], exclude, clock, i);
      var s :| s in DonorSources(spends[..|spends| - 1], exclude, clock) && DonorSource(s, spends[i], exclude, clock);
      assert s in DonorSources(spends, exclude, clock);
    }
  }

  lemma {:induction false} ReadyIn(
      spends: seq<CategorySpend>, readyToAssign: Money, exclude: set<CategoryId>, clock: MonthClock)
    requires clock.Valid() && readyToAssign > 0
    ensures exists s :: s in DonorPool(spends, readyToAssign, exclude, clock) && ReadySource(s, readyToAssign)
  {
    hide DonorSources;
    var s := DonorPool(spends, readyToAssign, exclude, clock)[0];
    assert s in DonorPool(spends, readyToAssign, exclude, clock) && ReadySource(s, readyToAssign);
  }

  lemma {:induction false} DonorsDistinct(spends: seq<CategorySpend>, exclude: set<CategoryId>, clock: MonthClock)
    requires clock.Valid() && DistinctSpends(spends)
    ensures DistinctSources(DonorSources(spends, exclude, clock))
  {
    hide DonorSlack;
    if spends != [] {
      var front, last := spends[..|spends| - 1], spends[|spends| - 1];
      DonorsDistinct(front, exclude, clock);
      var before := DonorSources(front, exclude, clock);
      forall k | 0 <= k < |before| ensures before[k].category != last.category {
        DonorsAre(front, exclude, clock, before[k]);
        var i :| 0 <= i < |front| && DonorSource(before[k], front[i], exclude, clock);
        assert spends[i].category != spends[|spends| - 1].category;
      }
    }
  }

  lemma {:induction false} PoolDistinct(
      spends: seq<CategorySpend>, readyToAssign: Money, exclude: set<CategoryId>, clock: MonthClock)
    requires clock.Valid() && DistinctSpends(spends)
    ensures DistinctSources(DonorPool(spends, readyToAssign, exclude, clock))
  {
    hide DonorSlack, DonorSources;
    DonorsDistinct(spends, exclude, clock);
    var donors := DonorSources(spends, exclude, clock);
    forall k | 0 <= k < |donors| ensures donors[k].category != READY_TO_ASSIGN {
      DonorsAre(spends, exclude, clock, donors[k]);
    }
  }

  // ---------- the order of drawing ----------

  lemma {:induction false} PrefixPulled(moves: seq<BudgetMove>, ceiling: Money, k: nat, c: CategoryId)
    requires Sized(moves, ceiling) && k <= |moves|
    ensures PulledFrom(moves[..k], c) <= PulledFrom(moves, c)
  {
    SumsOfConcat(moves[..k], moves[k..], c);
    assert moves == moves[..k] + moves[k..];
    PulledNonNegative(moves[k..], ceiling, c);
  }

  /** When a move draws on `t`, a cheaper source of the pool has given all it has. */
  lemma {:induction false} CheaperIsSpent(
      needs: seq<Need>, spends: seq<CategorySpend>, readyToAssign: Money, exclude: set<CategoryId>,
      clock: MonthClock, ceiling: Money, k: nat, s: Source, t: Source)
    requires clock.Valid() && DistinctSpends(spends)
    requires k < |Moves(needs, spends, readyToAssign, exclude, clock, ceiling)|
    requires s in DonorPool(spends, readyToAssign, exclude, clock)
    requires t in DonorPool(spends, readyToAssign, exclude, clock) && Cheaper(s, t) && s.Drawable() > 0
    requires t.category == Moves(needs, spends, readyToAssign, exclude, clock, ceiling)[k].source
    ensures PulledFrom(Moves(needs, spends, readyToAssign, exclude, clock, ceiling)[..k], s.category) == s.Drawable()
  {
    hide DonorPool, Plan, CheapestFirst, Cheaper, PulledFrom, Drawables;
    var pool := DonorPool(spends, readyToAssign, exclude, clock);
    var moves := Moves(needs, spends, readyToAssign, exclude, clock, ceiling);
    PoolDistinct(spends, readyToAssign, exclude, clock);
    PlanIsCheapestFirst(needs, pool, ceiling);
    DearerWaits(moves, pool, k, s, t);
    var i :| 0 <= i < |pool| && pool[i] == s;
    OwnDrawable(pool, i);
    PrefixPulled(moves, ceiling, k, s.category);
  }

  /** Every move draws on Ready-to-Assign, or on a category with slack that is not excluded. */
  lemma {:induction false} DrawsOnDonors(
      needs: seq<Need>, spends: seq<CategorySpend>, readyToAssign: Money, exclude: set<CategoryId>,
      clock: MonthClock, ceiling: Money, k: nat)
    returns (t: Source)
    requires clock.Valid() && k < |Moves(needs, spends, readyToAssign, exclude, clock, ceiling)|
    ensures var source := Moves(needs, spends, readyToAssign, exclude, clock, ceiling)[k].source;
            && t in DonorPool(spends, readyToAssign, exclude, clock) && t.category == source
            && (ReadySource(t, readyToAssign)
                || exists i :: 0 <= i < |spends| && DonorSource(t, spends[i], exclude, clock))
  {
    hide DonorPool, Plan, CheaperDrained, DonorSource, ReadySource;
    var pool := DonorPool(spends, readyToAssign, exclude, clock);
    var moves := Moves(needs, spends, readyToAssign, exclude, clock, ceiling);
    PlanIsCheapestFirst(needs, pool, ceiling);
    assert NothingCheaper(moves[..k], moves[k].source, pool);
    t :| t in pool && t.category == moves[k].source && CheaperDrained(moves[..k], t, pool);
    PoolIs(spends, readyToAssign, exclude, clock, t);
  }

  /** No category is drawn on before Ready-to-Assign is used up. */
  lemma {:induction false} ReadyToAssignFirst(
      needs: seq<Need>, spends: seq<CategorySpend>, readyToAssign: Money, exclude: set<CategoryId>,
      clock: MonthClock, ceiling: Money, k: nat)
    requires clock.Valid() && DistinctSpends(spends)
    requires var moves := Moves(needs, spends, readyToAssign, exclude, clock, ceiling);
             k < |moves| && moves[k].source != READY_TO_ASSIGN
    ensures PulledFrom(Moves(needs, spends, readyToAssign, exclude, clock, ceiling)[..k], READY_TO_ASSIGN)
         == Max(0, readyToAssign)
  {
    hide DonorPool, Plan, PulledFrom, DonorSlack;
    var t := DrawsOnDonors(needs, spends, readyToAssign, exclude, clock, ceiling, k);
    if readyToAssign > 0 {
      ReadyIn(spends, readyToAssign, exclude, clock);
      var s :| s in DonorPool(spends, readyToAssign, exclude, clock) && ReadySource(s, readyToAssign);
      CheaperIsSpent(needs, spends, readyToAssign, exclude, clock, ceiling, k, s, t);
    } else {
      NeverReady(needs, spends, readyToAssign, exclude, clock, ceiling, k);
    }
  }

  /** Without money in it Ready-to-Assign is never drawn on. */
  lemma {:induction false} NeverReady(
      needs: seq<Need>, spends: seq<CategorySpend>, readyToAssign: Money, exclude: set<CategoryId>,
      clock: MonthClock, ceiling: Money, k: nat)
    requires clock.Valid() && DistinctSpends(spends) && readyToAssign <= 0
    requires k <= |Moves(needs, spends, readyToAssign, exclude, clock, ceiling)|
    ensures PulledFrom(Moves(needs, spends, readyToAssign, exclude, clock, ceiling)[..k], READY_TO_ASSIGN) == 0
  {
    hide DonorPool, Plan, DonorSlack;
    var moves := Moves(needs, spends, readyToAssign, exclude, clock, ceiling);
    if k > 0 {
      NeverReady(needs, spends, readyToAssign, exclude, clock, ceiling, k - 1);
      assert moves[..k][..k - 1] == moves[..k - 1];
      var t := DrawsOnDonors(needs, spends, readyToAssign, exclude, clock, ceiling, k - 1);
    } else {
      assert moves[..0] == [];
    }
  }

  /** A category is drawn on only when it is not excluded and has slack, and only after every
      category with more slack that is not excluded has given all of its own. */
  lemma {:induction false} RicherDonorsFirst(
      needs: seq<Need>, spends: seq<CategorySpend>, readyToAssign: Money, exclude: set<CategoryId>,
      clock: MonthClock, ceiling: Money, k: nat, i: nat, j: nat)
    requires clock.Valid() && DistinctSpends(spends) && i < |spends| && j < |spends|
    requires var moves := Moves(needs, spends, readyToAssign, exclude, clock, ceiling);
             k < |moves| && moves[k].source == spends[j].category
    ensures spends[j].category !in exclude && DonorSlack(spends[j], clock).0 > 0
    ensures spends[i].category !in exclude && DonorSlack(spends[i], clock).0 > DonorSlack(spends[j], clock).0 ==>
              PulledFrom(Moves(needs, spends, readyToAssign, exclude, clock, ceiling)[..k], spends[i].category)
              == DonorSlack(spends[i], clock).0
  {
    hide Plan, PulledFrom, DonorSlack, DonorSources, Moves;
    var t := DrawsOnDonors(needs, spends, readyToAssign, exclude, clock, ceiling, k);
    assert DonorSource(t, spends[j], exclude, clock) by {
      var n :| 0 <= n < |spends| && DonorSource(t, spends[n], exclude, clock);
      assert n == j;
    }
    if spends[i].category !in exclude && DonorSlack(spends[i], clock).0 > DonorSlack(spends[j], clock).0 {
      DonorsHave(spends, exclude, clock, i);
      var s :| s in DonorSources(spends, exclude, clock) && DonorSource(s, spends[i], exclude, clock);
      assert s in DonorPool(spends, readyToAssign, exclude, clock);
      CheaperIsSpent(needs, spends, readyToAssign, exclude, clock, ceiling, k, s, t);
    }
  }

  // ---------- the offer ----------

  /** The categories in need, which lend nothing to each other. */
  function Needy(needs: seq<Need>): (r: set<CategoryId>)
    ensures forall n :: n in needs ==> n.category in r
    ensures forall c :: c in r ==> exists n :: n in needs && n.category == c
  {
    set n | n in needs :: n.category
  }

  /** Every move of the plan draws on Ready-to-Assign while there is any, and then on the
      categories with most slack; none draws on a category in need. */
  ghost predicate DrawnInOrder(
      moves: seq<BudgetMove>, needs: seq<Need>, spends: seq<CategorySpend>, readyToAssign: Money, clock: MonthClock)
    requires clock.Valid()
  {
    forall k :: 0 <= k < |moves| ==>
      && (forall n :: n in needs ==> n.category != moves[k].source || n.category == READY_TO_ASSIGN)
      && (moves[k].source != READY_TO_ASSIGN ==>
            PulledFrom(moves[..k], READY_TO_ASSIGN) == Max(0, readyToAssign))
      && forall i, j :: 0 <= i < |spends| && 0 <= j < |spends| && moves[k].source == spends[j].category
                        && (forall n :: n in needs ==> n.category != spends[i].category)
                        && DonorSlack(spends[i], clock).0 > DonorSlack(spends[j], clock).0 ==>
           PulledFrom(moves[..k], spends[i].category) == DonorSlack(spends[i], clock).0
  }

  lemma {:induction false} OfferInOrder(
      needs: seq<Need>, spends: seq<CategorySpend>, readyToAssign: Money, clock: MonthClock, ceiling: Money)
    requires clock.Valid() && DistinctSpends(spends)
    ensures DrawnInOrder(Moves(needs, spends, readyToAssign, Needy(needs), clock, ceiling), needs, spends,
                         readyToAssign, clock)
  {
    hide Moves, PulledFrom, DonorSlack, DonorSource, ReadySource;
    var exclude := Needy(needs);
    var moves := Moves(needs, spends, readyToAssign, exclude, clock, ceiling);
    forall k | 0 <= k < |moves| && moves[k].source != READY_TO_ASSIGN
      ensures PulledFrom(moves[..k], READY_TO_ASSIGN) == Max(0, readyToAssign)
      ensures moves[k].source !in exclude
    {
      ReadyToAssignFirst(needs, spends, readyToAssign, exclude, clock, ceiling, k);
      NotNeedy(needs, spends, readyToAssign, exclude, clock, ceiling, k);
    }
    forall k, i, j | 0 <= k < |moves| && 0 <= i < |spends| && 0 <= j < |spends| && moves[k].source == spends[j].category
                     && spends[i].category !in exclude
                     && DonorSlack(spends[i], clock).0 > DonorSlack(spends[j], clock).0
      ensures PulledFrom(moves[..k], spends[i].category) == DonorSlack(spends[i], clock).0
    {
      RicherDonorsFirst(needs, spends, readyToAssign, exclude, clock, ceiling, k, i, j);
    }
  }

  lemma {:induction false} NotNeedy(
      needs: seq<Need>, spends: seq<CategorySpend>, readyToAssign: Money, exclude: set<CategoryId>,
      clock: MonthClock, ceiling: Money, k: nat)
    requires clock.Valid() && k < |Moves(needs, spends, readyToAssign, exclude, clock, ceiling)|
    requires Moves(needs, spends, readyToAssign, exclude, clock, ceiling)[k].source != READY_TO_ASSIGN
    ensures Moves(needs, spends, readyToAssign, exclude, clock, ceiling)[k].source !in exclude
  {
    hide Moves, DonorSlack;
    var t := DrawsOnDonors(needs, spends, readyToAssign, exclude, clock, ceiling, k);
  }

  /** One read of the budget makes one plan for all the needs of a pass: the waterfall's over
      the donors that are not in need, drawn on in order, in moves within the ceiling. */
  method Propose(
      assessments: seq<Assessment>, spends: seq<CategorySpend>, readyToAssign: Money, clock: MonthClock)
    returns (plan: CoveragePlan)
    requires clock.Valid() && DistinctSpends(spends)
    ensures plan == Plan(NeedsFrom(assessments),
                         DonorPool(spends, readyToAssign, Needy(NeedsFrom(assessments)), clock),
                         Floor.PER_MOVE_CEILING)
    ensures DrawnInOrder(plan.moves, NeedsFrom(assessments), spends, readyToAssign, clock)
    ensures forall m :: m in plan.moves ==> 0 < m.amount <= Floor.PER_MOVE_CEILING
  {
    hide NeedsFrom, DonorPool, Plan, DrawnInOrder, DonorSlack, CheapestFirst, RankDiscipline;
    var needs := NeedsFrom(assessments);
    var sources := SourcesFromSpends(spends, readyToAssign, Needy(needs), clock);
    plan := PlanCoverage(needs, sources, Floor.PER_MOVE_CEILING);
    OfferInOrder(needs, spends, readyToAssign, clock, Floor.PER_MOVE_CEILING);
  }
}
