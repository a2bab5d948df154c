/** A decision written to YNAB and read back: what of it the wire carries, and when the
    read-back verifies. */
module WriteBack {
  import opened Prelude
  import opened Allocations
  import opened Domain
  import opened Converge

  /** A subtransaction on the wire; a missing or empty category is none. */
  datatype WireLine = WireLine(amount: Money, category: Option<CategoryId>, memo: Option<string>, deleted: bool)

  /** The fields of a transaction that a write sets or a verification reads. */
  datatype Wire = Wire(category: Option<CategoryId>, lines: seq<WireLine>, memo: Option<string>, approved: bool)

  /** What a write sends; `None` for memo or lines leaves them as they are. */
  datatype Patch = Patch(
    approved: bool, memo: Option<string>, category: Option<CategoryId>, lines: Option<seq<WireLine>>)

  predicate Named(category: Option<CategoryId>) {
    category.Some? && category.value != ""
  }

  /** A line as written: its person tag is not sent. */
  function Sent(line: ResolvedLine): WireLine {
    WireLine(line.amount, Some(line.category), line.memo, false)
  }

  function SentLines(lines: seq<ResolvedLine>): seq<WireLine> {
    seq(|lines|, i requires 0 <= i < |lines| => Sent(lines[i]))
  }

  function ToPatch(decision: Decision): Patch {
    match decision.allocation
    case ResolvedCategory(category, _) => Patch(decision.approved, decision.memo, Some(category), None)
    case ResolvedSplit(lines) => Patch(decision.approved, decision.memo, None, Some(SentLines(lines)))
  }

  /** The server overwrites exactly the fields it is sent. */
  function Written(before: Wire, patch: Patch): Wire {
    Wire(patch.category,
         if patch.lines.Some? then patch.lines.value else before.lines,
         if patch.memo.Some? then patch.memo else before.memo,
         patch.approved)
  }

  /** The split lines a read-back sees: neither deleted nor without a category. */
  function SplitLines(lines: seq<WireLine>): seq<ResolvedLine> {
    if lines == [] then []
    else
      var last := lines[|lines| - 1];
      SplitLines(lines[..|lines| - 1])
      + if !last.deleted && Named(last.category)
        then [ResolvedLine(last.category.value, last.amount, last.memo, None)] else []
  }

  /** The end-state read back; an uncategorized transaction has none. */
  function ReadBack(wire: Wire): Option<TargetState> {
    var lines := SplitLines(wire.lines);
    if |lines| > 1 then Some(TargetState(ResolvedSplit(lines), wire.memo, wire.approved))
    else if !Named(wire.category) then None
    else Some(TargetState(ResolvedCategory(wire.category.value, None), wire.memo, wire.approved))
  }

  /** The wire carries everything the line says. */
  predicate Carried(line: ResolvedLine) {
    line.personTag.None? && line.category != ""
  }

  /** The wire carries the allocation, onto a transaction that has those lines: no person
      tag anywhere, real categories, two lines at least for a split, and for a whole
      category no split already in place. */
  predicate Carries(before: Wire, allocation: ResolvedAllocation) {
    match allocation
    case ResolvedCategory(category, tag) => tag.None? && category != "" && |SplitLines(before.lines)| <= 1
    case ResolvedSplit(lines) => |lines| >= 2 && forall i :: 0 <= i < |lines| ==> Carried(lines[i])
  }

  /** Lines go out and come back unchanged when the wire carries each of them; and what
      comes back is always carried. */
  lemma {:induction false} LinesComeBack(lines: seq<ResolvedLine>)
    ensures var back := SplitLines(SentLines(lines));
            && |back| <= |lines| && (forall x :: x in back ==> Carried(x))
            && ((forall i :: 0 <= i < |lines| ==> Carried(lines[i])) ==> back == lines)
  {
    if lines != [] {
      var front := lines[..|lines| - 1];
      LinesComeBack(front);
      assert SentLines(lines)[..|lines| - 1] == SentLines(front);
      assert lines == front + [lines[|lines| - 1]];
    }
  }

  /** Lines that come back in the same runs are the same multiset. */
  lemma {:induction false} SameRunsSameLines(a: seq<ResolvedLine>, b: seq<ResolvedLine>)
    requires SameRuns(a, b)
    ensures forall x :: x in a <==> x in b
  {
    SortedLinesEqualIff(a, b);
    assert multiset(SortedLines(a)) == multiset(a) && multiset(SortedLines(b)) == multiset(b);
    forall x ensures x in a <==> x in b {
      assert x in multiset(a) <==> x in multiset(b);
    }
  }

  lemma SameRunsReflexive(a: seq<ResolvedLine>)
    ensures SameRuns(a, a)
  {
  }

  /** A decision written and read back verifies exactly when the wire carries its
      allocation; memo and approval always come back. */
  lemma {:induction false} WriteVerifiesIff(before: Wire, decision: Decision)
    ensures ClassifyVerify(ReadBack(Written(before, ToPatch(decision))), TargetOf(decision)) == Match
            <==> Carries(before, decision.allocation)
  {
    hide ClassifyVerify, SameRuns, SplitLines, SentLines;
    VerdictIff(ReadBack(Written(before, ToPatch(decision))), TargetOf(decision));
    if decision.allocation.ResolvedSplit? {
      var lines := decision.allocation.lines;
      var back := SplitLines(SentLines(lines));
      LinesComeBack(lines);
      SameRunsReflexive(lines);
      if SameRuns(back, lines) {
        SameRunsSameLines(back, lines);
        assert forall i :: 0 <= i < |lines| ==> lines[i] in lines;
      }
    }
  }

  /** YNAB may keep the lines of a split in any order: for lines that are identical when
      their keys are, the write still verifies. */
  lemma {:induction false} ReorderedWriteVerifies(before: Wire, decision: Decision, stored: Wire)
    requires decision.allocation.ResolvedSplit? && Carries(before, decision.allocation)
    requires KeyFaithful(decision.allocation.lines)
    requires var written := Written(before, ToPatch(decision));
             && stored == written.(lines := stored.lines) && multiset(stored.lines) == multiset(written.lines)
    ensures ClassifyVerify(ReadBack(stored), TargetOf(decision)) == Match
  {
    hide ClassifyVerify, KeyFaithful, SplitLines, SentLines;
    var lines := decision.allocation.lines;
    LinesComeBack(lines);
    SplitLinesCount(stored.lines, SentLines(lines));
    assert |SplitLines(stored.lines)| == |multiset(SplitLines(stored.lines))| == |multiset(lines)|;
    LandedWriteMatches(TargetOf(decision), ReadBack(stored).value);
  }

  lemma {:induction false} SplitLinesConcat(a: seq<WireLine>, b: seq<WireLine>)
    ensures SplitLines(a + b) == SplitLines(a) + SplitLines(b)
  {
    if b == [] {
      assert a + b == a;
    } else {
      assert (a + b)[..|a + b| - 1] == a + b[..|b| - 1];
      SplitLinesConcat(a, b[..|b| - 1]);
    }
  }

  /** A line read back in the middle of others might as well have come last. */
  lemma {:induction false} MovedLast(a: seq<WireLine>, line: WireLine, b: seq<WireLine>)
    ensures multiset(SplitLines(a + [line] + b)) == multiset(SplitLines(a + b + [line]))
  {
    hide SplitLines;
    SplitLinesConcat(a, [line]);
    SplitLinesConcat(a + [line], b);
    SplitLinesConcat(a, b);
    SplitLinesConcat(a + b, [line]);
  }

  lemma {:induction false} SameLast(a: seq<WireLine>, b: seq<WireLine>, line: WireLine)
    requires multiset(SplitLines(a)) == multiset(SplitLines(b))
    ensures multiset(SplitLines(a + [line])) == multiset(SplitLines(b + [line]))
  {
    hide SplitLines;
    SplitLinesConcat(a, [line]);
    SplitLinesConcat(b, [line]);
  }

  lemma Removed<T>(a: seq<T>, k: nat)
    requires k < |a|
    ensures a == a[..k] + [a[k]] + a[k + 1..]
    ensures multiset(a[..k] + a[k + 1..]) == multiset(a) - multiset{a[k]}
  {
    assert a == a[..k] + [a[k]] + a[k + 1..];
  }

  lemma SomewhereIn<T>(a: seq<T>, b: seq<T>, n: nat) returns (k: nat)
    requires n < |a| && multiset(a) == multiset(b)
    ensures k < |b| && b[k] == a[n]
  {
    assert a[n] in multiset(a);
    assert a[n] in multiset(b);
    k :| 0 <= k < |b| && b[k] == a[n];
  }

  lemma AllButLast<T>(a: seq<T>)
    requires a != []
    ensures a == a[..|a| - 1] + [a[|a| - 1]]
    ensures multiset(a[..|a| - 1]) == multiset(a) - multiset{a[|a| - 1]}
  {
    assert a == a[..|a| - 1] + [a[|a| - 1]];
  }

  /** What is read back of a multiset of lines does not depend on their order. */
  lemma {:induction false} SplitLinesCount(a: seq<WireLine>, b: seq<WireLine>)
    requires multiset(a) == multiset(b)
    ensures multiset(SplitLines(a)) == multiset(SplitLines(b))
    decreases |a|, 0
  {
    hide SplitLines;
    if a != [] {
      var k := SomewhereIn(a, b, |a| - 1);
      AllButLast(a);
      Removed(b, k);
      OutOfOrder(a[..|a| - 1], b[..k], b[k], b[k + 1..]);
    } else {
      assert |multiset(b)| == |b|;
    }
  }

  lemma {:induction false} OutOfOrder(front: seq<WireLine>, left: seq<WireLine>, line: WireLine, right: seq<WireLine>)
    requires multiset(front) == multiset(left + right)
    ensures multiset(SplitLines(front + [line])) == multiset(SplitLines(left + [line] + right))
    decreases |front|, 1
  {
    hide SplitLines;
    SplitLinesCount(front, left + right);
    SameLast(front, left + right, line);
    MovedLast(left, line, right);
  }
}
