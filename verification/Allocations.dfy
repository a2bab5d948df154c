/** Allocations: a single category or a split, as a template and as exact amounts. */
module Allocations {
  import opened Prelude

  datatype Share = Percent(percent: int) | Fixed(amount: Money)

  datatype SplitLine = SplitLine(
    share: Share, category: CategoryId, memoTemplate: Option<string>, personTag: Option<string>)

  datatype ProposedAllocation =
    | ProposedCategory(category: CategoryId, personTag: Option<string>)
    | ProposedSplit(lines: seq<SplitLine>)
  {
    /** The template's validator: at least two lines, and percent shares that
        partition the remainder. */
    predicate Valid() {
      ProposedSplit? ==>
        && |lines| >= 2
        && (forall i :: 0 <= i < |lines| && lines[i].share.Percent? ==> 1 <= lines[i].share.percent <= 100)
        && (exists i :: 0 <= i < |lines| && lines[i].share.Percent?)
        && PercentSum(lines) == 100
    }
  }

  datatype ResolvedLine = ResolvedLine(
    category: CategoryId, amount: Money, memo: Option<string>, personTag: Option<string>)

  datatype ResolvedAllocation =
    | ResolvedCategory(category: CategoryId, personTag: Option<string>)
    | ResolvedSplit(lines: seq<ResolvedLine>)

  function PercentOf(line: SplitLine): int {
    if line.share.Percent? then line.share.percent else 0
  }

  function PercentSum(lines: seq<SplitLine>): int {
    if lines == [] then 0 else PercentSum(lines[..|lines| - 1]) + PercentOf(lines[|lines| - 1])
  }

  function LineTotal(lines: seq<ResolvedLine>): Money {
    if lines == [] then 0 else LineTotal(lines[..|lines| - 1]) + lines[|lines| - 1].amount
  }

  /** A resolved split's `total`. */
  method SplitTotal(lines: seq<ResolvedLine>) returns (running: Money)
    ensures running == LineTotal(lines)
  {
    running := 0;
    for k := 0 to |lines|
      invariant running == LineTotal(lines[..k])
    {
      assert lines[..k + 1][..k] == lines[..k];
      running := running + lines[k].amount;
    }
    assert lines[..|lines|] == lines;
  }
}
