/** The reference picture of greedy coverage. Lay the demands end to end on a line,
    and the supplies end to end on the same line: supply `j` pays demand `i` exactly
    where their two intervals overlap. */
module Waterfall {
  import opened Prelude

  /** The sum of the first `k` entries: where interval `k` starts. */
  ghost function Before(xs: seq<nat>, k: nat): nat
    requires k <= |xs|
  {
    if k == 0 then 0 else Before(xs, k - 1) + xs[k - 1]
  }

  ghost function Total(xs: seq<nat>): nat {
    Before(xs, |xs|)
  }

  /** The length of the intersection of [a0, a1) and [b0, b1). */
  ghost function Overlap(a0: nat, a1: nat, b0: nat, b1: nat): nat {
    Max(0, Min(a1, b1) - Max(a0, b0))
  }

  ghost function Flow(demands: seq<nat>, supplies: seq<nat>, i: nat, j: nat): nat
    requires i < |demands| && j < |supplies|
  {
    Overlap(Before(demands, i), Before(demands, i + 1), Before(supplies, j), Before(supplies, j + 1))
  }

  /** What demand `i` receives in all. */
  ghost function Delivered(demands: seq<nat>, supplies: seq<nat>, i: nat): nat
    requires i < |demands|
  {
    Overlap(Before(demands, i), Before(demands, i + 1), 0, Total(supplies))
  }

  lemma {:induction false} BeforeMonotone(xs: seq<nat>, i: nat, j: nat)
    requires i <= j <= |xs|
    ensures Before(xs, i) <= Before(xs, j)
    ensures i < j ==> Before(xs, i) + xs[i] <= Before(xs, j)
  {
    if i < j {
      BeforeMonotone(xs, i, j - 1);
    }
  }

  /** What demand `i` receives from the first `j` supplies. */
  ghost function RowSum(demands: seq<nat>, supplies: seq<nat>, i: nat, j: nat): nat
    requires i < |demands| && j <= |supplies|
  {
    if j == 0 then 0 else RowSum(demands, supplies, i, j - 1) + Flow(demands, supplies, i, j - 1)
  }

  lemma {:induction false} RowSumIs(demands: seq<nat>, supplies: seq<nat>, i: nat, j: nat)
    requires i < |demands| && j <= |supplies|
    ensures RowSum(demands, supplies, i, j) ==
            Overlap(Before(demands, i), Before(demands, i + 1), 0, Before(supplies, j))
  {
    if j > 0 {
      RowSumIs(demands, supplies, i, j - 1);
    }
  }

  /** What supply `j` pays to the first `i` demands. */
  ghost function ColumnSum(demands: seq<nat>, supplies: seq<nat>, i: nat, j: nat): nat
    requires i <= |demands| && j < |supplies|
  {
    if i == 0 then 0 else ColumnSum(demands, supplies, i - 1, j) + Flow(demands, supplies, i - 1, j)
  }

  lemma NoColumn(demands: seq<nat>, supplies: seq<nat>, j: nat)
    requires j < |supplies|
    ensures ColumnSum(demands, supplies, 0, j) == 0
  {
  }

  lemma NextColumn(demands: seq<nat>, supplies: seq<nat>, i: nat, j: nat)
    requires i < |demands| && j < |supplies|
    ensures ColumnSum(demands, supplies, i + 1, j)
         == ColumnSum(demands, supplies, i, j) + Flow(demands, supplies, i, j)
  {
  }

  lemma {:induction false} ColumnSumIs(demands: seq<nat>, supplies: seq<nat>, i: nat, j: nat)
    requires i <= |demands| && j < |supplies|
    ensures ColumnSum(demands, supplies, i, j) ==
            Overlap(0, Before(demands, i), Before(supplies, j), Before(supplies, j + 1))
    ensures ColumnSum(demands, supplies, i, j) <= supplies[j]
  {
    if i > 0 {
      ColumnSumIs(demands, supplies, i - 1, j);
    }
  }

  /** When the demands reach past the supplies, each supply is paid out in full. */
  lemma {:induction false} ColumnDrained(demands: seq<nat>, supplies: seq<nat>, j: nat)
    requires j < |supplies| && Total(supplies) <= Total(demands)
    ensures ColumnSum(demands, supplies, |demands|, j) == supplies[j]
  {
    ColumnSumIs(demands, supplies, |demands|, j);
    BeforeMonotone(supplies, j + 1, |supplies|);
  }

  /** The first `k` demands together receive min(their sum, the whole supply). */
  ghost function DeliveredBefore(demands: seq<nat>, supplies: seq<nat>, k: nat): nat
    requires k <= |demands|
  {
    if k == 0 then 0 else DeliveredBefore(demands, supplies, k - 1) + Delivered(demands, supplies, k - 1)
  }

  lemma {:induction false} DeliveredBeforeIs(demands: seq<nat>, supplies: seq<nat>, k: nat)
    requires k <= |demands|
    ensures DeliveredBefore(demands, supplies, k) == Min(Before(demands, k), Total(supplies))
  {
    if k > 0 {
      DeliveredBeforeIs(demands, supplies, k - 1);
    }
  }
}
