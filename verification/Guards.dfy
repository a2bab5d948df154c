/** The two deterministic guards over budget moves (the one over a model's proposal
    and the one at apply time) and the greedy fallback they protect. */
module Guards {
  import opened Prelude
  import opened Coverage
  import opened Floor
  import opened Waterfall
  import opened Planner
  import CoverageTheorems

  datatype OptionRejection =
    Empty | WrongDestination | OverCeiling | InsufficientSource | SlackExceeded | DoesNotCover

  datatype BalanceOption = BalanceOption(name: string, moves: seq<BudgetMove>, rationale: string)

  type Funds = map<CategoryId, Money>

  /** The protected drawable of a source: its slack, or else its raw funds. */
  function SlackLimit(source: CategoryId, available: Funds, slack: Option<Funds>): Money {
    var fallback := Lookup(available, source, 0);
    if slack.None? then fallback else Lookup(slack.value, source, fallback)
  }

  // ---------- what the guards decide ----------

  /** The fault of one move; `destination` is the need's category when one is set. */
  function MoveFault(m: BudgetMove, destination: Option<CategoryId>, ceiling: Money): Option<OptionRejection> {
    if m.amount <= 0 then Some(Empty)
    else if destination.Some? && m.destination != destination.value then Some(WrongDestination)
    else if Abs(m.amount) > ceiling then Some(OverCeiling)
    else None
  }

  function FirstMoveFault(moves: seq<BudgetMove>, destination: Option<CategoryId>, ceiling: Money):
    Option<OptionRejection>
  {
    if moves == [] then None
    else
      var earlier := FirstMoveFault(moves[..|moves| - 1], destination, ceiling);
      if earlier.Some? then earlier else MoveFault(moves[|moves| - 1], destination, ceiling)
  }

  function SourceFault(amount: Money, source: CategoryId, available: Funds, slack: Option<Funds>):
    Option<OptionRejection>
  {
    if amount > Lookup(available, source, 0) then Some(InsufficientSource)
    else if amount > SlackLimit(source, available, slack) then Some(SlackExceeded)
    else None
  }

  /** The sources in the order a dictionary keyed by them would list them. */
  function SourceOrder(moves: seq<BudgetMove>): (r: seq<CategoryId>)
    ensures forall c :: c in r <==> exists m :: m in moves && m.source == c
  {
    if moves == [] then []
    else
      var front, last := moves[..|moves| - 1], moves[|moves| - 1];
      var order := SourceOrder(front);
      assert moves == front + [last];
      if last.source in order then order else order + [last.source]
  }

  function FirstSourceFault(moves: seq<BudgetMove>, order: seq<CategoryId>, available: Funds, slack: Option<Funds>):
    Option<OptionRejection>
  {
    if order == [] then None
    else
      var earlier := FirstSourceFault(moves, order[..|order| - 1], available, slack);
      var c := order[|order| - 1];
      if earlier.Some? then earlier else SourceFault(PulledFrom(moves, c), c, available, slack)
  }

  function CheckVerdict(moves: seq<BudgetMove>, available: Funds, slack: Option<Funds>, ceiling: Money):
    Option<OptionRejection>
  {
    if moves == [] then Some(Empty)
    else
      var fault := FirstMoveFault(moves, None, ceiling);
      if fault.Some? then fault else FirstSourceFault(moves, SourceOrder(moves), available, slack)
  }

  function ValidateVerdict(
      moves: seq<BudgetMove>, need: Need, available: Funds, slack: Option<Funds>, ceiling: Money):
    Option<OptionRejection>
  {
    if moves == [] then Some(Empty)
    else
      var fault := FirstMoveFault(moves, Some(need.category), ceiling);
      if fault.Some? then fault
      else
        var short := FirstSourceFault(moves, SourceOrder(moves), available, slack);
        if short.Some? then short
        else if TotalMoved(moves) < need.shortfall then Some(DoesNotCover)
        else None
  }

  // ---------- the loops ----------

  method PulledBySource(moves: seq<BudgetMove>) returns (pulled: Funds, order: seq<CategoryId>)
    ensures order == SourceOrder(moves)
    ensures forall c :: c in pulled <==> c in order
    ensures forall c :: c in pulled ==> pulled[c] == PulledFrom(moves, c)
  {
    pulled, order := map[], [];
    assert moves[..0] == [];
    for k := 0 to |moves|
      invariant order == SourceOrder(moves[..k])
      invariant forall c :: c in pulled <==> c in order
      invariant forall c :: Lookup(pulled, c, 0) == PulledFrom(moves[..k], c)
    {
      var m := moves[k];
      assert moves[..k + 1][..k] == moves[..k];
      if m.source !in pulled {
        order := order + [m.source];
      }
      pulled := pulled[m.source := Lookup(pulled, m.source, 0) + m.amount];
    }
    assert moves[..|moves|] == moves;
  }

  method SourcesFault(moves: seq<BudgetMove>, available: Funds, slack: Option<Funds>)
    returns (fault: Option<OptionRejection>)
    ensures fault == FirstSourceFault(moves, SourceOrder(moves), available, slack)
  {
    hide FirstSourceFault, SourceOrder, PulledFrom;
    var pulled, order := PulledBySource(moves);
    fault := None;
    NoSourceNoFault(moves, available, slack);
    assert order[..0] == [];
    for k := 0 to |order|
      invariant fault == None == FirstSourceFault(moves, order[..k], available, slack)
    {
      var source := order[k];
      NextSourceFault(moves, order, available, slack, k);
      var amount := pulled[source];
      if amount > Lookup(available, source, 0) {
        return Some(InsufficientSource);
      }
      if amount > SlackLimit(source, available, slack) {
        return Some(SlackExceeded);
      }
    }
    assert order[..|order|] == order;
  }

  lemma NoSourceNoFault(moves: seq<BudgetMove>, available: Funds, slack: Option<Funds>)
    ensures FirstSourceFault(moves, [], available, slack) == None
  {
  }

  /** With no fault among the first `k` sources, the verdict on source `k` stands, and
      a fault there is the fault of the whole list. */
  lemma {:induction false} NextSourceFault(
      moves: seq<BudgetMove>, order: seq<CategoryId>, available: Funds, slack: Option<Funds>, k: nat)
    requires k < |order| && FirstSourceFault(moves, order[..k], available, slack).None?
    ensures var fault := SourceFault(PulledFrom(moves, order[k]), order[k], available, slack);
            && FirstSourceFault(moves, order[..k + 1], available, slack) == fault
            && (fault.Some? ==> FirstSourceFault(moves, order, available, slack) == fault)
  {
    assert order[..k + 1][..k] == order[..k];
    FaultPersists(moves, order, available, slack, k + 1);
  }

  lemma {:induction false} FaultPersists(
      moves: seq<BudgetMove>, order: seq<CategoryId>, available: Funds, slack: Option<Funds>, k: nat)
    requires k <= |order|
    ensures FirstSourceFault(moves, order[..k], available, slack).Some? ==>
              FirstSourceFault(moves, order, available, slack)
              == FirstSourceFault(moves, order[..k], available, slack)
    decreases |order|
  {
    if k < |order| {
      assert order[..|order| - 1][..k] == order[..k];
      FaultPersists(moves, order[..|order| - 1], available, slack, k);
    } else {
      assert order[..k] == order;
    }
  }

  lemma {:induction false} MoveFaultPersists(
      moves: seq<BudgetMove>, destination: Option<CategoryId>, ceiling: Money, k: nat)
    requires k <= |moves|
    ensures FirstMoveFault(moves[..k], destination, ceiling).Some? ==>
              FirstMoveFault(moves, destination, ceiling) == FirstMoveFault(moves[..k], destination, ceiling)
    decreases |moves|
  {
    if k < |moves| {
      assert moves[..|moves| - 1][..k] == moves[..k];
      MoveFaultPersists(moves[..|moves| - 1], destination, ceiling, k);
    } else {
      assert moves[..k] == moves;
    }
  }

  /** The apply-time guard. */
  method CheckMoves(moves: seq<BudgetMove>, available: Funds, slack: Option<Funds>, ceiling: Money)
    returns (rejection: Option<OptionRejection>)
    ensures rejection == CheckVerdict(moves, available, slack, ceiling)
  {
    if moves == [] {
      return Some(Empty);
    }
    for k := 0 to |moves|
      invariant FirstMoveFault(moves[..k], None, ceiling) == None
    {
      var m := moves[k];
      assert moves[..k + 1][..k] == moves[..k];
      MoveFaultPersists(moves, None, ceiling, k + 1);
      if m.amount <= 0 {
        return Some(Empty);
      }
      if Abs(m.amount) > ceiling {
        return Some(OverCeiling);
      }
    }
    assert moves[..|moves|] == moves;
    rejection := SourcesFault(moves, available, slack);
  }

  /** The guard over a proposed option. */
  method ValidateOption(option: BalanceOption, need: Need, available: Funds, slack: Option<Funds>, ceiling: Money)
    returns (rejection: Option<OptionRejection>)
    ensures rejection == ValidateVerdict(option.moves, need, available, slack, ceiling)
  {
    var moves := option.moves;
    if moves == [] {
      return Some(Empty);
    }
    var covered := 0;
    for k := 0 to |moves|
      invariant FirstMoveFault(moves[..k], Some(need.category), ceiling) == None
      invariant covered == TotalMoved(moves[..k])
    {
      var m := moves[k];
      assert moves[..k + 1][..k] == moves[..k];
      MoveFaultPersists(moves, Some(need.category), ceiling, k + 1);
      if m.amount <= 0 {
        return Some(Empty);
      }
      if m.destination != need.category {
        return Some(WrongDestination);
      }
      if Abs(m.amount) > ceiling {
        return Some(OverCeiling);
      }
      covered := covered + m.amount;
    }
    assert moves[..|moves|] == moves;
    rejection := SourcesFault(moves, available, slack);
    if rejection.None? && covered < need.shortfall {
      return Some(DoesNotCover);
    }
  }

  // ---------- what acceptance means ----------

  /** Moves that may be applied: at least one, each positive and within the ceiling,
      and no source pulled past its funds or its protected slack in total. */
  ghost predicate Applicable(moves: seq<BudgetMove>, available: Funds, slack: Option<Funds>, ceiling: Money) {
    && moves != []
    && Sized(moves, ceiling)
    && forall m :: m in moves ==>
         && PulledFrom(moves, m.source) <= Lookup(available, m.source, 0)
         && PulledFrom(moves, m.source) <= SlackLimit(m.source, available, slack)
  }

  lemma {:induction false} NoMoveFaultIff(moves: seq<BudgetMove>, destination: Option<CategoryId>, ceiling: Money)
    ensures FirstMoveFault(moves, destination, ceiling).None? <==>
            && Sized(moves, ceiling)
            && forall m :: m in moves && destination.Some? ==> m.destination == destination.value
  {
    if moves != [] {
      var front, last := moves[..|moves| - 1], moves[|moves| - 1];
      NoMoveFaultIff(front, destination, ceiling);
      assert moves == front + [last];
      assert forall m :: m in moves <==> m in front || m == last;
    }
  }

  lemma {:induction false} NoSourceFaultIff(
      moves: seq<BudgetMove>, order: seq<CategoryId>, available: Funds, slack: Option<Funds>)
    ensures FirstSourceFault(moves, order, available, slack).None? <==>
            forall c :: c in order ==> SourceFault(PulledFrom(moves, c), c, available, slack).None?
  {
    if order != [] {
      var front, last := order[..|order| - 1], order[|order| - 1];
      NoSourceFaultIff(moves, front, available, slack);
      assert order == front + [last];
      assert last in order && forall c :: c in front ==> c in order;
      if FirstSourceFault(moves, order, available, slack).None? {
        assert SourceFault(PulledFrom(moves, last), last, available, slack).None?;
      }
    }
  }

  /** The apply-time guard accepts exactly the applicable moves. */
  lemma {:induction false} CheckAcceptsIff(
      moves: seq<BudgetMove>, available: Funds, slack: Option<Funds>, ceiling: Money)
    ensures CheckVerdict(moves, available, slack, ceiling).None? <==> Applicable(moves, available, slack, ceiling)
  {
    NoMoveFaultIff(moves, None, ceiling);
    NoSourceFaultIff(moves, SourceOrder(moves), available, slack);
    assert forall m :: m in moves ==> m.source in SourceOrder(moves);
  }

  /** The proposal guard accepts exactly the applicable moves that all fund the needy
      category and together meet its shortfall. */
  lemma {:induction false} ValidateAcceptsIff(
      moves: seq<BudgetMove>, need: Need, available: Funds, slack: Option<Funds>, ceiling: Money)
    ensures ValidateVerdict(moves, need, available, slack, ceiling).None? <==>
            && Applicable(moves, available, slack, ceiling)
            && (forall m :: m in moves ==> m.destination == need.category)
            && need.shortfall <= TotalMoved(moves)
  {
    NoMoveFaultIff(moves, Some(need.category), ceiling);
    NoSourceFaultIff(moves, SourceOrder(moves), available, slack);
    assert forall m :: m in moves ==> m.source in SourceOrder(moves);
  }

  /** Anything the proposal guard accepts, the apply-time guard accepts too. */
  lemma {:induction false} ValidatedPassesCheck(
      moves: seq<BudgetMove>, need: Need, available: Funds, slack: Option<Funds>, ceiling: Money)
    requires ValidateVerdict(moves, need, available, slack, ceiling).None?
    ensures CheckVerdict(moves, available, slack, ceiling).None?
  {
    ValidateAcceptsIff(moves, need, available, slack, ceiling);
    CheckAcceptsIff(moves, available, slack, ceiling);
  }

  // ---------- what a rejection means ----------

  /** The move is at fault on its own, and for what first. */
  predicate AtFault(m: BudgetMove, destination: Option<CategoryId>, ceiling: Money, reason: OptionRejection) {
    if m.amount <= 0 then reason == Empty
    else if destination.Some? && destination != Some(m.destination) then reason == WrongDestination
    else m.amount > ceiling && reason == OverCeiling
  }

  predicate Faultless(m: BudgetMove, destination: Option<CategoryId>, ceiling: Money) {
    0 < m.amount <= ceiling && (destination == None || destination == Some(m.destination))
  }

  /** What the source holds, and what it may give: its slack where one is known. */
  function Holds(source: CategoryId, available: Funds): Money {
    if source in available then available[source] else 0
  }

  function MayGive(source: CategoryId, available: Funds, slack: Option<Funds>): Money {
    if slack.Some? && source in slack.value then slack.value[source] else Holds(source, available)
  }

  /** The moves together take more from the source than it holds, or than it may give. */
  ghost predicate Overdrawn(
      moves: seq<BudgetMove>, source: CategoryId, available: Funds, slack: Option<Funds>, reason: OptionRejection)
  {
    if PulledFrom(moves, source) > Holds(source, available) then reason == InsufficientSource
    else PulledFrom(moves, source) > MayGive(source, available, slack) && reason == SlackExceeded
  }

  ghost predicate Sustained(moves: seq<BudgetMove>, source: CategoryId, available: Funds, slack: Option<Funds>) {
    PulledFrom(moves, source) <= Holds(source, available)
    && PulledFrom(moves, source) <= MayGive(source, available, slack)
  }

  /** The first move at fault, or past the end when none is. */
  lemma {:induction false} FirstAtFault(moves: seq<BudgetMove>, destination: Option<CategoryId>, ceiling: Money)
    returns (k: nat)
    ensures k <= |moves| && forall i :: 0 <= i < k ==> Faultless(moves[i], destination, ceiling)
    ensures var fault := FirstMoveFault(moves, destination, ceiling);
            if k == |moves| then fault.None? else fault.Some? && AtFault(moves[k], destination, ceiling, fault.value)
  {
    if moves == [] {
      k := 0;
    } else {
      k := FirstAtFault(moves[..|moves| - 1], destination, ceiling);
      if k == |moves| - 1 && FirstMoveFault(moves, destination, ceiling).None? {
        k := |moves|;
      }
    }
  }

  /** The first fault among the sources of the first `n` moves, each judged on all moves. */
  ghost function FaultUpTo(moves: seq<BudgetMove>, n: nat, available: Funds, slack: Option<Funds>):
    Option<OptionRejection>
    requires n <= |moves|
  {
    FirstSourceFault(moves, SourceOrder(moves[..n]), available, slack)
  }

  /** One more move adds no fault of its own when its source was judged before. */
  lemma {:induction false} FaultStep(moves: seq<BudgetMove>, n: nat, available: Funds, slack: Option<Funds>)
    returns (i: nat)
    requires 0 < n <= |moves| && FaultUpTo(moves, n - 1, available, slack).None?
    ensures i < n && moves[i].source == moves[n - 1].source
    ensures i == n - 1 || FaultUpTo(moves, n, available, slack).None?
    ensures i == n - 1 ==>
              FaultUpTo(moves, n, available, slack)
              == SourceFault(PulledFrom(moves, moves[n - 1].source), moves[n - 1].source, available, slack)
  {
    var c, before := moves[n - 1].source, SourceOrder(moves[..n - 1]);
    assert moves[..n][..n - 1] == moves[..n - 1];
    if c in before {
      var m :| m in moves[..n - 1] && m.source == c;
      i :| 0 <= i < n - 1 && moves[..n - 1][i] == m;
    } else {
      i := n - 1;
      assert (before + [c])[..|before|] == before;
    }
  }

  lemma FaultStays(moves: seq<BudgetMove>, n: nat, available: Funds, slack: Option<Funds>)
    requires 0 < n <= |moves| && FaultUpTo(moves, n - 1, available, slack).Some?
    ensures FaultUpTo(moves, n, available, slack) == FaultUpTo(moves, n - 1, available, slack)
  {
    var c, before := moves[n - 1].source, SourceOrder(moves[..n - 1]);
    assert moves[..n][..n - 1] == moves[..n - 1];
    assert c !in before ==> (before + [c])[..|before|] == before;
  }

  lemma FaultOf(moves: seq<BudgetMove>, c: CategoryId, available: Funds, slack: Option<Funds>)
    ensures var fault := SourceFault(PulledFrom(moves, c), c, available, slack);
            if fault.None? then Sustained(moves, c, available, slack)
            else Overdrawn(moves, c, available, slack, fault.value)
  {
  }

  /** The first move whose source is overdrawn by all of them, or past the end. */
  lemma {:induction false} FirstOverdrawn(moves: seq<BudgetMove>, n: nat, available: Funds, slack: Option<Funds>)
    returns (k: nat)
    requires n <= |moves|
    ensures k <= n && forall i :: 0 <= i < k ==> Sustained(moves, moves[i].source, available, slack)
    ensures var fault := FaultUpTo(moves, n, available, slack);
            if k == n then fault.None?
            else fault.Some? && Overdrawn(moves, moves[k].source, available, slack, fault.value)
  {
    if n == 0 {
      k := 0;
      assert moves[..0] == [];
    } else {
      hide PulledFrom, Sustained, Overdrawn, FaultUpTo, SourceFault;
      k := FirstOverdrawn(moves, n - 1, available, slack);
      if k < n - 1 {
        FaultStays(moves, n, available, slack);
      } else {
        var i := FaultStep(moves, n, available, slack);
        FaultOf(moves, moves[n - 1].source, available, slack);
        if FaultUpTo(moves, n, available, slack).None? {
          k := n;
        }
      }
    }
  }

  /** Why moves are rejected: first of all that there are none; then the first move at fault
      on its own, for being nothing, for funding another category, or for its size, in that
      order; then the first whose source all of them overdraw, its funds before its slack;
      and last that they do not cover the need. `k` is that move. */
  lemma {:induction false} RejectedFor(
      moves: seq<BudgetMove>, need: Option<Need>, available: Funds, slack: Option<Funds>, ceiling: Money)
    returns (k: nat)
    ensures var rejection := if need.Some? then ValidateVerdict(moves, need.value, available, slack, ceiling)
                             else CheckVerdict(moves, available, slack, ceiling);
            var destination := if need.Some? then Some(need.value.category) else None;
            var faultless := forall m :: m in moves ==> Faultless(m, destination, ceiling);
            var sustained := forall m :: m in moves ==> Sustained(moves, m.source, available, slack);
            if moves == [] then rejection == Some(Empty)
            else if !faultless then
              && k < |moves| && (forall i :: 0 <= i < k ==> Faultless(moves[i], destination, ceiling))
              && rejection.Some? && AtFault(moves[k], destination, ceiling, rejection.value)
            else if !sustained then
              && k < |moves| && (forall i :: 0 <= i < k ==> Sustained(moves, moves[i].source, available, slack))
              && rejection.Some? && Overdrawn(moves, moves[k].source, available, slack, rejection.value)
            else if need.Some? && TotalMoved(moves) < need.value.shortfall then rejection == Some(DoesNotCover)
            else rejection.None?
  {
    hide FirstMoveFault, FirstSourceFault, PulledFrom, TotalMoved, SourceOrder;
    var destination := if need.Some? then Some(need.value.category) else None;
    k := FirstAtFault(moves, destination, ceiling);
    if k == |moves| {
      assert moves[..|moves|] == moves;
      k := FirstOverdrawn(moves, |moves|, available, slack);
      assert FaultUpTo(moves, |moves|, available, slack)
          == FirstSourceFault(moves, SourceOrder(moves), available, slack);
    } else {
      assert moves[k] in moves && !Faultless(moves[k], destination, ceiling);
    }
    if k < |moves| {
      assert moves[k] in moves;
    }
  }

  // ---------- the greedy fallback ----------

  /** The raw balances the proposal guard checks against; the last source wins. */
  function Availables(sources: seq<Source>): Funds {
    if sources == [] then map[]
    else
      var s := sources[|sources| - 1];
      Availables(sources[..|sources| - 1])[s.category := s.available]
  }

  function FeasibleOptions(options: seq<BalanceOption>, need: Need, sources: seq<Source>, ceiling: Money):
    (r: seq<BalanceOption>)
    ensures forall o :: o in r <==>
              o in options
              && ValidateVerdict(o.moves, need, Availables(sources), Some(Drawables(sources)), ceiling).None?
  {
    if options == [] then []
    else
      var last := options[|options| - 1];
      assert options == options[..|options| - 1] + [last];
      FeasibleOptions(options[..|options| - 1], need, sources, ceiling)
      + if ValidateVerdict(last.moves, need, Availables(sources), Some(Drawables(sources)), ceiling).None?
        then [last] else []
  }

  /** The options that pass are kept in the order offered, as often as offered. */
  lemma {:induction false} FeasibleInOrder(
      a: seq<BalanceOption>, b: seq<BalanceOption>, need: Need, sources: seq<Source>, ceiling: Money)
    ensures FeasibleOptions(a + b, need, sources, ceiling)
         == FeasibleOptions(a, need, sources, ceiling) + FeasibleOptions(b, need, sources, ceiling)
  {
    hide ValidateVerdict;
    if b == [] {
      assert a + b == a;
    } else {
      assert (a + b)[..|a + b| - 1] == a + b[..|b| - 1];
      FeasibleInOrder(a, b[..|b| - 1], need, sources, ceiling);
    }
  }

  lemma {:induction false} SingleDemand(need: Need)
    ensures Total(Demands([need])) == Max(0, need.shortfall)
  {
    assert Before(Demands([need]), 0) == 0;
  }

  /** The plan for one need covers it, and moves something, exactly when the need is
      positive and the pool can pay it. */
  lemma {:induction false} SinglePlan(need: Need, sources: seq<Source>, ceiling: Money)
    ensures var plan := Plan([need], sources, ceiling);
            plan.uncovered == [] && plan.moves != [] <==>
            0 < need.shortfall <= Total(PoolSupplies(sources, ceiling))
  {
    var plan, supplies := Plan([need], sources, ceiling), PoolSupplies(sources, ceiling);
    SingleDemand(need);
    CoverageTheorems.PlanTotals([need], sources, ceiling);
    CoverageTheorems.UncoveredIsTail([need], supplies, 1);
    if plan.moves != [] {
      assert plan.moves[0] in plan.moves;
      PositiveTotal(plan.moves);
    }
  }

  lemma {:induction false} PositiveTotal(moves: seq<BudgetMove>)
    requires forall m :: m in moves ==> 0 < m.amount
    ensures TotalMoved(moves) >= 0
    ensures moves != [] ==> TotalMoved(moves) > 0
  {
    if moves != [] {
      assert moves[|moves| - 1] in moves;
      PositiveTotal(moves[..|moves| - 1]);
    }
  }

  /** No source offers more than it holds. */
  ghost predicate Backed(sources: seq<Source>) {
    forall c :: c in Drawables(sources) && Drawables(sources)[c] > 0 ==>
      Drawables(sources)[c] <= Lookup(Availables(sources), c, 0)
  }

  /** The fallback's plan passes the proposal guard built from the same sources,
      provided they are backed. */
  lemma {:induction false} FallbackPassesGuard(need: Need, sources: seq<Source>, ceiling: Money)
    requires 0 < need.shortfall <= Total(PoolSupplies(sources, ceiling)) && Backed(sources)
    ensures ValidateVerdict(Plan([need], sources, ceiling).moves, need, Availables(sources),
                            Some(Drawables(sources)), ceiling).None?
  {
    hide Plan, Drawables, Availables, PulledFrom, ValidateVerdict, Demands, PoolSupplies;
    var moves := Plan([need], sources, ceiling).moves;
    SinglePlan(need, sources, ceiling);
    SingleDemand(need);
    CoverageTheorems.PlanTotals([need], sources, ceiling);
    forall m | m in moves
      ensures PulledFrom(moves, m.source) <= Drawables(sources)[m.source]
      ensures Drawables(sources)[m.source] > 0
    {
      PulledAtLeast(moves, m);
    }
    ValidateAcceptsIff(moves, need, Availables(sources), Some(Drawables(sources)), ceiling);
  }

  /** It passes for every need it can cover exactly when the sources are backed. */
  lemma {:induction false} FallbackAlwaysPassesIff(sources: seq<Source>, ceiling: Money)
    requires ceiling > 0
    ensures Backed(sources) <==>
            forall need: Need :: 0 < need.shortfall <= Total(PoolSupplies(sources, ceiling)) ==>
              ValidateVerdict(Plan([need], sources, ceiling).moves, need, Availables(sources),
                              Some(Drawables(sources)), ceiling).None?
  {
    hide Plan, Drawables, Availables, PulledFrom, ValidateVerdict, Demands, PoolSupplies;
    if Backed(sources) {
      forall need: Need | 0 < need.shortfall <= Total(PoolSupplies(sources, ceiling))
        ensures ValidateVerdict(Plan([need], sources, ceiling).moves, need, Availables(sources),
                                Some(Drawables(sources)), ceiling).None?
      {
        FallbackPassesGuard(need, sources, ceiling);
      }
    } else {
      var c :| c in Drawables(sources) && Drawables(sources)[c] > Max(0, Lookup(Availables(sources), c, 0));
      var need := Need("", Total(PoolSupplies(sources, ceiling)));
      UnbackedFails(need, sources, ceiling, c);
    }
  }

  /** Asked for everything there is, the fallback overdraws a source that is not backed. */
  lemma {:induction false} UnbackedFails(need: Need, sources: seq<Source>, ceiling: Money, c: CategoryId)
    requires ceiling > 0 && need.shortfall == Total(PoolSupplies(sources, ceiling))
    requires c in Drawables(sources) && Drawables(sources)[c] > Max(0, Lookup(Availables(sources), c, 0))
    ensures 0 < need.shortfall
    ensures ValidateVerdict(Plan([need], sources, ceiling).moves, need, Availables(sources),
                            Some(Drawables(sources)), ceiling).Some?
  {
    hide Plan, Drawables, Availables, PulledFrom, ValidateVerdict, Demands, PoolSupplies;
    var moves := Plan([need], sources, ceiling).moves;
    SingleDemand(need);
    CoverageTheorems.PlanDrains([need], sources, ceiling, c);
    CoverageTheorems.PlanTotals([need], sources, ceiling);
    PulledHasMove(moves, c);
    ValidateAcceptsIff(moves, need, Availables(sources), Some(Drawables(sources)), ceiling);
  }

  /** Funds pulled from a source come in moves from it. */
  lemma {:induction false} PulledHasMove(moves: seq<BudgetMove>, c: CategoryId)
    requires PulledFrom(moves, c) > 0 && forall m :: m in moves ==> 0 < m.amount
    ensures TotalMoved(moves) > 0 && exists m :: m in moves && m.source == c
  {
    var front, last := moves[..|moves| - 1], moves[|moves| - 1];
    assert moves == front + [last];
    assert last in moves;
    PositiveTotal(front);
    if last.source != c {
      PulledHasMove(front, c);
    }
  }

  lemma {:induction false} PulledAtLeast(moves: seq<BudgetMove>, m: BudgetMove)
    requires m in moves && forall n :: n in moves ==> 0 < n.amount
    ensures PulledFrom(moves, m.source) >= m.amount
  {
    var front, last := moves[..|moves| - 1], moves[|moves| - 1];
    assert moves == front + [last];
    if m in front {
      PulledAtLeast(front, m);
    } else {
      PulledNonNegativeOf(front, m.source);
    }
  }

  lemma {:induction false} PulledNonNegativeOf(moves: seq<BudgetMove>, c: CategoryId)
    requires forall n :: n in moves ==> 0 < n.amount
    ensures PulledFrom(moves, c) >= 0
  {
    if moves != [] {
      assert moves[|moves| - 1] in moves;
      PulledNonNegativeOf(moves[..|moves| - 1], c);
    }
  }

  /** The greedy plan as one option: there is one exactly when the need is positive
      and the drawables can cover it. */
  method FallbackOption(need: Need, sources: seq<Source>) returns (option: Option<BalanceOption>)
    ensures option.Some? <==> 0 < need.shortfall <= Total(PoolSupplies(sources, PER_MOVE_CEILING))
    ensures option.Some? ==> option.value.moves == Plan([need], sources, PER_MOVE_CEILING).moves
  {
    hide *;
    var plan := PlanCoverage([need], sources, PER_MOVE_CEILING);
    SinglePlan(need, sources, PER_MOVE_CEILING);
    if plan.uncovered != [] || plan.moves == [] {
      return None;
    }
    return Some(BalanceOption(
      "Automatic", plan.moves,
      "Pull from Ready to Assign first, then buffers, then over-funded categories, in that order."));
  }
}
