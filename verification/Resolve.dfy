/** Binding a split template to a total: fixed lines first, then the remainder by
    percent, the last percent line taking the residue. */
module Resolve {
  import opened Prelude
  import opened Allocations

  function Direction(total: Money): int {
    if total < 0 then -1 else 1
  }

  function FixedOf(line: SplitLine, total: Money): Money {
    if line.share.Fixed? then Direction(total) * Abs(line.share.amount) else 0
  }

  function FixedSum(lines: seq<SplitLine>, total: Money): Money {
    if lines == [] then 0 else FixedSum(lines[..|lines| - 1], total) + FixedOf(lines[|lines| - 1], total)
  }

  function PercentCount(lines: seq<SplitLine>): nat {
    if lines == [] then 0
    else PercentCount(lines[..|lines| - 1]) + if lines[|lines| - 1].share.Percent? then 1 else 0
  }

  ghost predicate LastPercent(lines: seq<SplitLine>, last: int) {
    && 0 <= last < |lines| && lines[last].share.Percent?
    && forall i :: last < i < |lines| ==> lines[i].share.Fixed?
  }

  /** What one line resolves to: its category, memo and person tag kept; a fixed line
      its magnitude in the direction of the total; a percent line the floor of its
      share of the remainder, or, if it is the last, that share and less than one
      milliunit more per other percent line. */
  ghost predicate Carries(
      line: SplitLine, total: Money, remainder: Money, isLast: bool, percents: nat, made: ResolvedLine)
  {
    && made.category == line.category && made.memo == line.memoTemplate && made.personTag == line.personTag
    && (line.share.Fixed? ==>
          made.amount == if total < 0 then -Abs(line.share.amount) else Abs(line.share.amount))
    && (line.share.Percent? ==>
          if isLast then 0 <= 100 * made.amount - remainder * line.share.percent <= 99 * (percents - 1)
          else made.amount == remainder * line.share.percent / 100)
  }

  ghost predicate Apportioned(lines: seq<SplitLine>, total: Money, resolved: seq<ResolvedLine>) {
    && |resolved| == |lines|
    && forall i :: 0 <= i < |lines| ==>
         Carries(lines[i], total, total - FixedSum(lines, total), LastPercent(lines, i), PercentCount(lines),
                 resolved[i])
  }

  /** The lines before `k` resolve to their fixed amounts plus `distributed`, and what
      flooring has held back so far is between 0 and 99 hundredths a percent line. */
  ghost predicate Underway(
      lines: seq<SplitLine>, total: Money, remainder: Money, k: nat, resolved: seq<ResolvedLine>, distributed: Money)
    requires k <= |lines|
  {
    && LineTotal(resolved) == FixedSum(lines[..k], total) + distributed
    && 0 <= remainder * PercentSum(lines[..k]) - 100 * distributed <= 99 * PercentCount(lines[..k])
  }

  lemma {:induction false} FloorShare(remainder: Money, percent: int)
    ensures 0 <= remainder * percent - 100 * (remainder * percent / 100) <= 99
  {
  }

  lemma Distribute(r: int, a: int, b: int)
    ensures r * (a + b) == r * a + r * b
  {
  }

  lemma {:induction false} OneMoreLine(lines: seq<SplitLine>, total: Money, k: nat)
    requires k < |lines|
    ensures FixedSum(lines[..k + 1], total) == FixedSum(lines[..k], total) + FixedOf(lines[k], total)
    ensures PercentSum(lines[..k + 1]) == PercentSum(lines[..k]) + PercentOf(lines[k])
    ensures PercentCount(lines[..k + 1]) == PercentCount(lines[..k]) + if lines[k].share.Percent? then 1 else 0
  {
    assert lines[..k + 1][..k] == lines[..k];
  }

  lemma LineTotalAppend(resolved: seq<ResolvedLine>, line: ResolvedLine)
    ensures LineTotal(resolved + [line]) == LineTotal(resolved) + line.amount
  {
    assert (resolved + [line])[..|resolved|] == resolved;
  }

  /** A non-last percent line holds back at most 99 hundredths of a milliunit. */
  lemma {:induction false} UnderwayStep(
      lines: seq<SplitLine>, total: Money, remainder: Money, k: nat, resolved: seq<ResolvedLine>,
      distributed: Money, line: ResolvedLine)
    requires k < |lines| && Underway(lines, total, remainder, k, resolved, distributed)
    requires line.amount == if lines[k].share.Fixed? then FixedOf(lines[k], total)
                            else remainder * lines[k].share.percent / 100
    ensures Underway(lines, total, remainder, k + 1, resolved + [line],
                     distributed + if lines[k].share.Fixed? then 0 else line.amount)
  {
    hide PercentSum, PercentCount, FixedSum, LineTotal;
    OneMoreLine(lines, total, k);
    LineTotalAppend(resolved, line);
    Distribute(remainder, PercentSum(lines[..k]), PercentOf(lines[k]));
    if lines[k].share.Percent? {
      FloorShare(remainder, lines[k].share.percent);
    }
  }

  /** Past the last percent line only fixed lines remain. */
  lemma {:induction false} NoMorePercents(lines: seq<SplitLine>, last: nat, k: nat)
    requires LastPercent(lines, last) && last < k <= |lines|
    ensures PercentSum(lines[..k]) == PercentSum(lines) && PercentCount(lines[..k]) == PercentCount(lines)
    decreases |lines| - k
  {
    if k < |lines| {
      OneMoreLine(lines, 0, k);
      NoMorePercents(lines, last, k + 1);
    } else {
      assert lines[..k] == lines;
    }
  }

  /** The residue the last percent line takes. */
  lemma {:induction false} ResidueBounds(
      lines: seq<SplitLine>, total: Money, remainder: Money, last: nat, resolved: seq<ResolvedLine>,
      distributed: Money)
    requires LastPercent(lines, last) && PercentSum(lines) == 100
    requires Underway(lines, total, remainder, last, resolved, distributed)
    ensures 0 <= 100 * (remainder - distributed) - remainder * lines[last].share.percent
              <= 99 * (PercentCount(lines) - 1)
  {
    hide PercentSum, PercentCount, FixedSum, LineTotal;
    OneMoreLine(lines, total, last);
    NoMorePercents(lines, last, last + 1);
    Distribute(remainder, PercentSum(lines[..last]), PercentOf(lines[last]));
  }

  method FindLastPercent(lines: seq<SplitLine>) returns (last: nat)
    requires exists i :: 0 <= i < |lines| && lines[i].share.Percent?
    ensures LastPercent(lines, last)
  {
    last := 0;
    ghost var seen := false;
    for k := 0 to |lines|
      invariant seen <==> exists i :: 0 <= i < k && lines[i].share.Percent?
      invariant seen ==> last < k && lines[last].share.Percent?
      invariant seen ==> forall i :: last < i < k ==> lines[i].share.Fixed?
    {
      if lines[k].share.Percent? {
        last, seen := k, true;
      }
    }
  }

  method FixedTotal(lines: seq<SplitLine>, total: Money) returns (fixedTotal: Money)
    ensures fixedTotal == FixedSum(lines, total)
  {
    fixedTotal := 0;
    for k := 0 to |lines|
      invariant fixedTotal == FixedSum(lines[..k], total)
    {
      OneMoreLine(lines, total, k);
      if lines[k].share.Fixed? {
        fixedTotal := fixedTotal + Direction(total) * Abs(lines[k].share.amount);
      }
    }
    assert lines[..|lines|] == lines;
  }

  ghost predicate Progress(
      lines: seq<SplitLine>, total: Money, remainder: Money, last: nat, k: nat, resolved: seq<ResolvedLine>,
      distributed: Money)
    requires k <= |lines|
  {
    && |resolved| == k
    && (forall i :: 0 <= i < k ==>
          Carries(lines[i], total, remainder, i == last, PercentCount(lines), resolved[i]))
    && (k <= last ==> Underway(lines, total, remainder, k, resolved, distributed))
    && (k > last ==> LineTotal(resolved) == FixedSum(lines[..k], total) + remainder)
  }

  lemma ProgressStart(lines: seq<SplitLine>, total: Money, remainder: Money, last: nat)
    ensures Progress(lines, total, remainder, last, 0, [], 0)
  {
    assert lines[..0] == [];
  }

  lemma {:induction false} ProgressStep(
      lines: seq<SplitLine>, total: Money, remainder: Money, last: nat, k: nat, resolved: seq<ResolvedLine>,
      distributed: Money, made: ResolvedLine)
    requires k < |lines| && LastPercent(lines, last) && PercentSum(lines) == 100
    requires Progress(lines, total, remainder, last, k, resolved, distributed)
    requires made.category == lines[k].category && made.memo == lines[k].memoTemplate
             && made.personTag == lines[k].personTag
    requires made.amount == if lines[k].share.Fixed? then FixedOf(lines[k], total)
                            else if k == last then remainder - distributed
                            else remainder * lines[k].share.percent / 100
    ensures Progress(lines, total, remainder, last, k + 1, resolved + [made],
                     distributed + if lines[k].share.Percent? && k != last then made.amount else 0)
  {
    hide PercentSum, PercentCount, FixedSum, LineTotal;
    if k == last {
      ResidueBounds(lines, total, remainder, last, resolved, distributed);
    }
    OneMoreLine(lines, total, k);
    LineTotalAppend(resolved, made);
    if k < last {
      UnderwayStep(lines, total, remainder, k, resolved, distributed, made);
    }
  }

  lemma ProgressEnd(
      lines: seq<SplitLine>, total: Money, last: nat, resolved: seq<ResolvedLine>, distributed: Money)
    requires LastPercent(lines, last)
    requires Progress(lines, total, total - FixedSum(lines, total), last, |lines|, resolved, distributed)
    ensures LineTotal(resolved) == total && Apportioned(lines, total, resolved)
  {
    assert last < |lines|;
    hide Carries, LastPercent, PercentCount, LineTotal;
    assert lines[..|lines|] == lines;
    OnlyLast(lines, last);
    var remainder := total - FixedSum(lines, total);
    forall i | 0 <= i < |lines|
      ensures Carries(lines[i], total, remainder, LastPercent(lines, i), PercentCount(lines), resolved[i])
    {
      assert LastPercent(lines, i) == (i == last);
      assert Carries(lines[i], total, remainder, i == last, PercentCount(lines), resolved[i]);
    }
  }

  /** Every split sums exactly to the total, and is apportioned as stated. */
  method ResolveSplit(lines: seq<SplitLine>, total: Money) returns (resolved: seq<ResolvedLine>)
    requires ProposedSplit(lines).Valid()
    ensures LineTotal(resolved) == total
    ensures Apportioned(lines, total, resolved)
  {
    hide Progress, Apportioned, LineTotal, FixedSum, PercentSum, PercentCount;
    var fixedTotal := FixedTotal(lines, total);
    var remainder := total - fixedTotal;
    var last := FindLastPercent(lines);
    resolved := [];
    var distributed := 0;
    ProgressStart(lines, total, remainder, last);
    for k := 0 to |lines|
      invariant Progress(lines, total, remainder, last, k, resolved, distributed)
    {
      var line := lines[k];
      var amount: Money;
      if line.share.Fixed? {
        amount := Direction(total) * Abs(line.share.amount);
      } else if k == last {
        amount := remainder - distributed;
      } else {
        amount := remainder * line.share.percent / 100;
      }
      var made := ResolvedLine(line.category, amount, line.memoTemplate, line.personTag);
      ProgressStep(lines, total, remainder, last, k, resolved, distributed, made);
      if line.share.Percent? && k != last {
        distributed := distributed + amount;
      }
      resolved := resolved + [made];
    }
    ProgressEnd(lines, total, last, resolved, distributed);
  }

  lemma OnlyLast(lines: seq<SplitLine>, last: int)
    requires LastPercent(lines, last)
    ensures forall i :: 0 <= i < |lines| ==> (LastPercent(lines, i) <==> i == last)
  {
  }

  method ResolveAllocation(proposed: ProposedAllocation, total: Money) returns (resolved: ResolvedAllocation)
    requires proposed.Valid()
    ensures proposed.ProposedCategory? ==> resolved == ResolvedCategory(proposed.category, proposed.personTag)
    ensures proposed.ProposedSplit? ==>
              resolved.ResolvedSplit? && LineTotal(resolved.lines) == total
              && Apportioned(proposed.lines, total, resolved.lines)
  {
    if proposed.ProposedCategory? {
      return ResolvedCategory(proposed.category, proposed.personTag);
    }
    var lines := ResolveSplit(proposed.lines, total);
    return ResolvedSplit(lines);
  }

  /** Lines apportioned to the same template and total can differ only in the last
      percent line, and not at all once their sums agree. */
  lemma {:induction false} ApportionmentUnique(
      lines: seq<SplitLine>, total: Money, a: seq<ResolvedLine>, b: seq<ResolvedLine>, last: nat)
    requires LastPercent(lines, last)
    requires Apportioned(lines, total, a) && Apportioned(lines, total, b)
    requires LineTotal(a) == LineTotal(b)
    ensures a == b
  {
    OnlyLast(lines, last);
    forall i | 0 <= i < |a| && i != last ensures a[i] == b[i] {
    }
    DifferAtOne(a, b, last, |a|);
    assert a[..|a|] == a && b[..|a|] == b;
  }

  lemma {:induction false} DifferAtOne(a: seq<ResolvedLine>, b: seq<ResolvedLine>, last: nat, k: nat)
    requires k <= |a| == |b| && last < |a| && forall i :: 0 <= i < |a| && i != last ==> a[i] == b[i]
    ensures LineTotal(a[..k]) - LineTotal(b[..k]) == if last < k then a[last].amount - b[last].amount else 0
  {
    if k > 0 {
      assert a[..k][..k - 1] == a[..k - 1] && b[..k][..k - 1] == b[..k - 1];
      DifferAtOne(a, b, last, k - 1);
    }
  }
}
