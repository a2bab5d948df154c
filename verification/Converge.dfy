/** Converge-to-target: the dedup hash of an end-state, the read-back verdict, and the
    decision taken before a write. */
module Converge {
  import opened Prelude
  import opened Allocations
  import opened Domain
  import Text
  import StableSort

  datatype TargetState = TargetState(allocation: ResolvedAllocation, memo: Option<string>, approved: bool)

  datatype VerifyOutcome = Match | CouldNotConfirm | Diverged

  datatype PrecommitAction = Write | NoChange | AlreadyTarget | DivergedBefore

  /** The end-state a decision asks for. */
  function TargetOf(decision: Decision): TargetState {
    TargetState(decision.allocation, decision.memo, decision.approved)
  }

  /** SHA-256 of the canonical JSON, taken as injective: the digest is what it digests. */
  datatype Digest = Digest(of: TargetState)

  function MemoKey(line: ResolvedLine): string {
    line.memo.GetOr("")
  }

  /** Lines compared by (category, amount, memo or ""). */
  predicate KeyLeq(a: ResolvedLine, b: ResolvedLine) {
    if a.category != b.category then Text.LexLeq(a.category, b.category)
    else if a.amount != b.amount then a.amount < b.amount
    else Text.LexLeq(MemoKey(a), MemoKey(b))
  }

  predicate SameKey(a: ResolvedLine, b: ResolvedLine) {
    a.category == b.category && a.amount == b.amount && a.memo.GetOr("") == b.memo.GetOr("")
  }

  lemma TiedIffSameKey(a: ResolvedLine, b: ResolvedLine)
    ensures KeyLeq(a, b) && KeyLeq(b, a) <==> SameKey(a, b)
  {
    if KeyLeq(a, b) && KeyLeq(b, a) {
      if a.category != b.category {
        Text.LexAntisymmetric(a.category, b.category);
      } else {
        Text.LexAntisymmetric(MemoKey(a), MemoKey(b));
      }
    }
    Text.LexTotal(MemoKey(a), MemoKey(a));
  }

  lemma KeyLeqTransitive(a: ResolvedLine, b: ResolvedLine, c: ResolvedLine)
    requires KeyLeq(a, b) && KeyLeq(b, c)
    ensures KeyLeq(a, c)
  {
    if a.category != b.category && b.category != c.category {
      Text.LexTransitive(a.category, b.category, c.category);
      if a.category == c.category {
        Text.LexAntisymmetric(a.category, b.category);
      }
    } else if a.category == b.category == c.category && a.amount == b.amount == c.amount {
      Text.LexTransitive(MemoKey(a), MemoKey(b), MemoKey(c));
    }
  }

  lemma KeyLeqIsTotalPreorder()
    ensures StableSort.TotalPreorder(KeyLeq)
  {
    forall a: ResolvedLine, b: ResolvedLine ensures KeyLeq(a, b) || KeyLeq(b, a) {
      Text.LexTotal(a.category, b.category);
      Text.LexTotal(MemoKey(a), MemoKey(b));
    }
    forall a: ResolvedLine, b: ResolvedLine, c: ResolvedLine | KeyLeq(a, b) && KeyLeq(b, c) ensures KeyLeq(a, c) {
      KeyLeqTransitive(a, b, c);
    }
  }

  function SortedLines(lines: seq<ResolvedLine>): seq<ResolvedLine> {
    StableSort.Sort(KeyLeq, lines)
  }

  function Canonical(target: TargetState): TargetState {
    match target.allocation
    case ResolvedSplit(lines) => target.(allocation := ResolvedSplit(SortedLines(lines)))
    case ResolvedCategory(_, _) => target
  }

  function ContentHash(target: TargetState): Digest {
    Digest(Canonical(target))
  }

  function NeedsWrite(current: Option<TargetState>, target: TargetState): bool {
    current.None? || ContentHash(current.value) != ContentHash(target)
  }

  function ClassifyVerify(readBack: Option<TargetState>, target: TargetState): VerifyOutcome {
    if readBack.None? then CouldNotConfirm
    else
      var read := if target.memo.None? then readBack.value.(memo := None) else readBack.value;
      if ContentHash(read) == ContentHash(target) then Match else Diverged
  }

  function Precommit(current: Option<TargetState>, target: TargetState, prior: Option<TargetState>): PrecommitAction {
    if !NeedsWrite(current, target) then
      if current.Some? && prior.Some? && ContentHash(current.value) == ContentHash(prior.value)
      then NoChange else AlreadyTarget
    else if current.Some? && prior.Some? && current.value.allocation != prior.value.allocation then DivergedBefore
    else Write
  }

  // ---------- what equal hashes mean ----------

  /** The lines of each key come in the same order on both sides. */
  ghost predicate SameRuns(a: seq<ResolvedLine>, b: seq<ResolvedLine>) {
    forall e :: StableSort.Ties(KeyLeq, e, a) == StableSort.Ties(KeyLeq, e, b)
  }

  /** Lines that share a key are identical. */
  ghost predicate KeyFaithful(lines: seq<ResolvedLine>) {
    forall x, y :: x in lines && y in lines && SameKey(x, y) ==> x == y
  }

  lemma {:induction false} SortedLinesEqualIff(a: seq<ResolvedLine>, b: seq<ResolvedLine>)
    ensures SortedLines(a) == SortedLines(b) <==> SameRuns(a, b)
  {
    KeyLeqIsTotalPreorder();
    StableSort.SortEqualIff(KeyLeq, a, b);
  }

  /** Exactly when two end-states hash equal, with no condition on the lines. */
  lemma {:induction false} HashEqualIff(a: TargetState, b: TargetState)
    ensures ContentHash(a) == ContentHash(b) <==>
            && a.memo == b.memo && a.approved == b.approved
            && if a.allocation.ResolvedSplit? && b.allocation.ResolvedSplit?
               then SameRuns(a.allocation.lines, b.allocation.lines)
               else a.allocation == b.allocation
  {
    if a.allocation.ResolvedSplit? && b.allocation.ResolvedSplit? {
      SortedLinesEqualIff(a.allocation.lines, b.allocation.lines);
    }
  }

  /** A run of identical lines is determined by how often the line occurs. */
  lemma {:induction false} RunCount(e: ResolvedLine, lines: seq<ResolvedLine>, x: ResolvedLine)
    requires SameKey(e, x)
    requires forall y :: y in lines && SameKey(e, y) ==> y == x
    ensures var run := StableSort.Ties(KeyLeq, e, lines);
            |run| == multiset(lines)[x] && forall i :: 0 <= i < |run| ==> run[i] == x
  {
    if lines != [] {
      hide KeyLeq;
      TiedIffSameKey(e, lines[0]);
      RunCount(e, lines[1..], x);
      assert lines == [lines[0]] + lines[1..];
    }
  }

  lemma {:induction false} FaithfulRuns(a: seq<ResolvedLine>, b: seq<ResolvedLine>)
    requires KeyFaithful(a) && multiset(a) == multiset(b)
    ensures SameRuns(a, b)
  {
    forall x ensures x in a <==> x in b {
      assert x in multiset(a) <==> x in multiset(b);
    }
    forall e ensures StableSort.Ties(KeyLeq, e, a) == StableSort.Ties(KeyLeq, e, b) {
      if x :| x in a && SameKey(e, x) {
        forall y | y in a && SameKey(e, y) ensures y == x {
          assert SameKey(x, y);
        }
        RunCount(e, a, x);
        RunCount(e, b, x);
      } else {
        NoRun(e, a);
        NoRun(e, b);
      }
    }
  }

  lemma {:induction false} NoRun(e: ResolvedLine, lines: seq<ResolvedLine>)
    requires forall y :: y in lines ==> !SameKey(e, y)
    ensures StableSort.Ties(KeyLeq, e, lines) == []
  {
    if lines != [] {
      TiedIffSameKey(e, lines[0]);
      NoRun(e, lines[1..]);
    }
  }

  /** For faithful splits the hash sees the lines as a multiset: two end-states hash
      equal exactly when memo and approval agree and their lines are the same
      multiset. */
  lemma {:induction false} HashEqualIffSameMultiset(a: TargetState, b: TargetState)
    requires a.allocation.ResolvedSplit? && b.allocation.ResolvedSplit? && KeyFaithful(a.allocation.lines)
    ensures ContentHash(a) == ContentHash(b) <==>
            && a.memo == b.memo && a.approved == b.approved
            && multiset(a.allocation.lines) == multiset(b.allocation.lines)
  {
    var la, lb := a.allocation.lines, b.allocation.lines;
    if multiset(la) == multiset(lb) {
      FaithfulRuns(la, lb);
    }
    SortedLinesEqualIff(la, lb);
    assert multiset(SortedLines(la)) == multiset(la) && multiset(SortedLines(lb)) == multiset(lb);
  }

  function WithFirst(lines: seq<ResolvedLine>, k: nat): (r: seq<ResolvedLine>)
    requires k < |lines|
    ensures multiset(r) == multiset(lines) && r[0] == lines[k]
  {
    assert lines == lines[..k] + [lines[k]] + lines[k + 1..];
    [lines[k]] + lines[..k] + lines[k + 1..]
  }

  /** Order does not matter to the hash of a split exactly when lines that share a key
      are identical: two lines that tie but differ (a missing memo against an empty one,
      or different person tags) are kept in the order they came. */
  lemma {:induction false} OrderInsensitiveIff(lines: seq<ResolvedLine>)
    ensures (forall other :: multiset(other) == multiset(lines) ==> SortedLines(other) == SortedLines(lines))
            <==> KeyFaithful(lines)
  {
    if KeyFaithful(lines) {
      forall other | multiset(other) == multiset(lines) ensures SortedLines(other) == SortedLines(lines) {
        FaithfulRuns(lines, other);
        SortedLinesEqualIff(lines, other);
      }
    } else {
      var x, y :| x in lines && y in lines && SameKey(x, y) && x != y;
      var i :| 0 <= i < |lines| && lines[i] == x;
      var j :| 0 <= j < |lines| && lines[j] == y;
      var xFirst, yFirst := WithFirst(lines, i), WithFirst(lines, j);
      TiedIffSameKey(x, y);
      TiedIffSameKey(x, x);
      assert StableSort.Ties(KeyLeq, x, xFirst)[0] == x;
      assert StableSort.Ties(KeyLeq, x, yFirst)[0] == y;
      SortedLinesEqualIff(xFirst, yFirst);
      assert SortedLines(xFirst) != SortedLines(yFirst);
    }
  }

  // ---------- verify and precommit ----------

  /** YNAB may return a faithful split in any order: the verdict does not change. */
  lemma {:induction false} VerifyIgnoresOrder(read: TargetState, reordered: TargetState, target: TargetState)
    requires read.allocation.ResolvedSplit? && reordered.allocation.ResolvedSplit?
    requires KeyFaithful(read.allocation.lines)
    requires reordered == read.(allocation := reordered.allocation)
    requires multiset(reordered.allocation.lines) == multiset(read.allocation.lines)
    ensures ClassifyVerify(Some(read), target) == ClassifyVerify(Some(reordered), target)
  {
    HashEqualIffSameMultiset(read, reordered);
    HashEqualIffSameMultiset(read.(memo := None), reordered.(memo := None));
  }

  /** The verdict in full: unconfirmed exactly when nothing could be read; a match exactly
      when approval agrees, the memo agrees if the target has one, and the allocations
      hash equal; diverged otherwise. */
  lemma {:induction false} VerdictIff(readBack: Option<TargetState>, target: TargetState)
    ensures ClassifyVerify(readBack, target).CouldNotConfirm? <==> readBack.None?
    ensures ClassifyVerify(readBack, target).Match? <==>
            && readBack.Some? && readBack.value.approved == target.approved
            && (target.memo.Some? ==> readBack.value.memo == target.memo)
            && if readBack.value.allocation.ResolvedSplit? && target.allocation.ResolvedSplit?
               then SameRuns(readBack.value.allocation.lines, target.allocation.lines)
               else readBack.value.allocation == target.allocation
  {
    if readBack.Some? {
      HashEqualIff(readBack.value, target);
      HashEqualIff(readBack.value.(memo := None), target);
    }
  }

  /** A decision counts as written exactly when it reads back approved as decided, with the
      memo decided if there was one, and with its allocation, up to the order of lines with
      different keys. */
  lemma {:induction false} DecisionVerifiesIff(readBack: Option<TargetState>, decision: Decision)
    ensures ClassifyVerify(readBack, TargetOf(decision)).Match? <==>
            && readBack.Some? && readBack.value.approved == decision.approved
            && (decision.memo.Some? ==> readBack.value.memo == decision.memo)
            && match decision.allocation
               case ResolvedSplit(lines) =>
                 readBack.value.allocation.ResolvedSplit? && SameRuns(readBack.value.allocation.lines, lines)
               case ResolvedCategory(_, _) => readBack.value.allocation == decision.allocation
  {
    hide ClassifyVerify, SameRuns;
    VerdictIff(readBack, TargetOf(decision));
  }

  /** A write that read back exactly as the target is a match, in any line order. */
  lemma {:induction false} LandedWriteMatches(target: TargetState, read: TargetState)
    requires read.approved == target.approved && (target.memo.Some? ==> read.memo == target.memo)
    requires if target.allocation.ResolvedSplit?
             then read.allocation.ResolvedSplit? && KeyFaithful(target.allocation.lines)
                  && multiset(read.allocation.lines) == multiset(target.allocation.lines)
             else read.allocation == target.allocation
    ensures ClassifyVerify(Some(read), target) == Match
  {
    var seen := if target.memo.None? then read.(memo := None) else read;
    if target.allocation.ResolvedSplit? {
      HashEqualIffSameMultiset(target, seen);
    }
  }

  /** Once a target has verified, running the precommit decision again on the same
      read-back writes nothing, whatever the prior, exactly when the target carries a
      memo or the read-back has none. A target without a memo over a memo'd
      transaction verifies, yet would be written again. */
  lemma {:induction false} VerifiedTargetIsNotRewrittenIff(
      read: TargetState, target: TargetState, prior: Option<TargetState>)
    requires ClassifyVerify(Some(read), target) == Match
    ensures var again := Precommit(Some(read), target, prior);
            again.AlreadyTarget? || again.NoChange? <==> target.memo.Some? || read.memo.None?
  {
    HashEqualIff(read, target);
    HashEqualIff(read.(memo := None), target);
  }

  /** Two end-states agree: in memo and approval, and in allocation up to the order of lines
      with different keys. */
  ghost predicate Agree(a: TargetState, b: TargetState) {
    && a.memo == b.memo && a.approved == b.approved
    && if a.allocation.ResolvedSplit? && b.allocation.ResolvedSplit?
       then SameRuns(a.allocation.lines, b.allocation.lines)
       else a.allocation == b.allocation
  }

  /** Every answer in full: the target is written exactly when YNAB does not show it and
      there is nothing to clobber, an unreadable state or one without a prior included; a
      divergence is answered exactly when it does not show it, and shows another allocation
      than the known prior; when it does show it, nothing changed exactly if the prior agrees
      too, and otherwise the target is adopted. */
  lemma {:induction false} PrecommitIff(
      current: Option<TargetState>, target: TargetState, prior: Option<TargetState>)
    ensures var action := Precommit(current, target, prior);
            var shows := current.Some? && Agree(current.value, target);
            && (action == DivergedBefore <==>
                  !shows && current.Some? && prior.Some? && current.value.allocation != prior.value.allocation)
            && (action == Write <==>
                  !shows && (current.None? || prior.None? || current.value.allocation == prior.value.allocation))
            && (action == NoChange <==> shows && prior.Some? && Agree(current.value, prior.value))
            && (action == AlreadyTarget <==> shows && (prior.None? || !Agree(current.value, prior.value)))
  {
    hide SameRuns;
    if current.Some? {
      HashEqualIff(current.value, target);
      if prior.Some? {
        HashEqualIff(current.value, prior.value);
      }
    }
  }

  /** NO_CHANGE is answered exactly when current, target and prior are one end-state;
      a write never goes over an allocation the agent did not apply last; and an
      unreadable current state is always written. */
  lemma {:induction false} PrecommitNeverClobbers(
      current: Option<TargetState>, target: TargetState, prior: Option<TargetState>)
    ensures Precommit(current, target, prior).NoChange? <==>
            && current.Some? && prior.Some?
            && ContentHash(current.value) == ContentHash(target) == ContentHash(prior.value)
    ensures Precommit(current, target, prior).Write? && current.Some? && prior.Some? ==>
              current.value.allocation == prior.value.allocation
              && (current.value.memo != target.memo || current.value.approved != target.approved
                  || current.value.allocation != target.allocation)
    ensures current.None? ==> Precommit(current, target, prior) == Write
  {
    if current.Some? {
      HashEqualIff(current.value, target);
    }
  }

  /** The divergence test compares raw allocations: an end-state the agent applied and
      nobody edited, one that still hashes as applied, is taken for an out-of-band edit
      exactly when it is a split that reads back in another order. */
  lemma {:induction false} UneditedReadsAsDivergedIff(
      prior: TargetState, current: TargetState, target: TargetState)
    requires ContentHash(current) == ContentHash(prior) != ContentHash(target)
    ensures Precommit(Some(current), target, Some(prior)) == DivergedBefore <==>
            prior.allocation.ResolvedSplit? && current.allocation.ResolvedSplit?
            && current.allocation.lines != prior.allocation.lines
  {
    HashEqualIff(current, prior);
  }

  /** It happens to every faithful split of two different lines. */
  lemma {:induction false} ReorderedPriorReadsAsDiverged(
      prior: TargetState, current: TargetState, target: TargetState)
    requires prior.allocation.ResolvedSplit? && current.allocation.ResolvedSplit?
    requires KeyFaithful(prior.allocation.lines)
    requires multiset(current.allocation.lines) == multiset(prior.allocation.lines)
    requires current == prior.(allocation := current.allocation) && current != prior
    requires ContentHash(target) != ContentHash(prior)
    ensures Precommit(Some(current), target, Some(prior)) == DivergedBefore
    ensures ContentHash(current) == ContentHash(prior)
  {
    HashEqualIffSameMultiset(prior, current);
  }
}
