/** The hard floor: limits that hold whatever any model or rule says. */
module Floor {
  import opened Prelude

  datatype FloorVerdict = Allow | ForceHuman | TripBreaker

  datatype Counters = Counters(thisRun: nat, today: nat)

  datatype FloorPolicy = FloorPolicy(
    perTxnCeiling: Money, perRunCap: nat, perDayCap: nat, perMoveCeiling: Money, movesPerDayCap: nat)

  const PER_MOVE_CEILING: Money := 500_000
  const MOVES_PER_DAY_CAP: nat := 10
  const CAUTIOUS_FLOOR := FloorPolicy(75_000, 8, 20, PER_MOVE_CEILING, MOVES_PER_DAY_CAP)

  /** An unknown amount or one past the ceiling goes to a human, whatever the counters; only
      then may the breaker trip. */
  function CheckFloor(amount: Option<Money>, counters: Counters, policy: FloorPolicy): (r: FloorVerdict)
    ensures r.Allow? <==>
            && amount.Some? && -policy.perTxnCeiling <= amount.value <= policy.perTxnCeiling
            && counters.thisRun < policy.perRunCap && counters.today < policy.perDayCap
    ensures r.ForceHuman? <==>
            amount.None? || amount.value < -policy.perTxnCeiling || policy.perTxnCeiling < amount.value
  {
    if amount.None? then ForceHuman
    else if Abs(amount.value) > policy.perTxnCeiling then ForceHuman
    else if counters.thisRun >= policy.perRunCap || counters.today >= policy.perDayCap then TripBreaker
    else Allow
  }

  /** The same floor for one reallocation of the day. */
  function CheckBudgetMoveFloor(amount: Money, counters: Counters, policy: FloorPolicy): (r: FloorVerdict)
    ensures r.Allow? <==>
            -policy.perMoveCeiling <= amount <= policy.perMoveCeiling && counters.today < policy.movesPerDayCap
    ensures r.ForceHuman? <==> amount < -policy.perMoveCeiling || policy.perMoveCeiling < amount
  {
    if Abs(amount) > policy.perMoveCeiling then ForceHuman
    else if counters.today >= policy.movesPerDayCap then TripBreaker
    else Allow
  }

  /** The limits in force: seventy-five currency units a transaction, eight an hour's run and
      twenty a day; five hundred a move, and ten moves a day. */
  lemma CautiousLimits(amount: Money, counters: Counters)
    ensures CheckFloor(Some(amount), counters, CAUTIOUS_FLOOR).Allow? <==>
            -75_000 <= amount <= 75_000 && counters.thisRun < 8 && counters.today < 20
    ensures CheckBudgetMoveFloor(amount, counters, CAUTIOUS_FLOOR).Allow? <==>
            -500_000 <= amount <= 500_000 && counters.today < 10
  {
  }
}
