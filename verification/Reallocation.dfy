/** From approved moves to absolute budget targets, and why writing those targets is
    safe to repeat. */
module Reallocation {
  import opened Prelude
  import opened Coverage
  import opened Guards
  import opened Donors

  /** The change the moves ask of a category. Ready-to-Assign is never lowered by a
      write: YNAB lowers it when a destination rises. */
  function NetChange(moves: seq<BudgetMove>, c: CategoryId): Money {
    PaidTo(moves, c) - if c == READY_TO_ASSIGN then 0 else PulledFrom(moves, c)
  }

  /** The categories a move touches. */
  function Touched(m: BudgetMove): set<CategoryId> {
    {m.destination} + if m.source == READY_TO_ASSIGN then {} else {m.source}
  }

  function Mentioned(moves: seq<BudgetMove>): (r: set<CategoryId>)
    ensures forall m :: m in moves ==> Touched(m) <= r
  {
    if moves == [] then {}
    else
      assert moves == moves[..|moves| - 1] + [moves[|moves| - 1]];
      Mentioned(moves[..|moves| - 1]) + Touched(moves[|moves| - 1])
  }

  function Changed(moves: seq<BudgetMove>): set<CategoryId> {
    set c | c in Mentioned(moves) && NetChange(moves, c) != 0
  }

  /** The absolute budget each changed category should be set to; none when one of
      them has no baseline budget to change. */
  function TargetsOf(moves: seq<BudgetMove>, budgeted: Funds): Option<Funds> {
    if Changed(moves) <= budgeted.Keys
    then Some(map c | c in Changed(moves) :: budgeted[c] + NetChange(moves, c))
    else None
  }

  lemma {:induction false} OneMoreMove(moves: seq<BudgetMove>, k: nat, c: CategoryId)
    requires k < |moves|
    ensures Mentioned(moves[..k + 1]) == Mentioned(moves[..k]) + Touched(moves[k])
    ensures NetChange(moves[..k + 1], c) == NetChange(moves[..k], c)
            + (if c == moves[k].destination then moves[k].amount else 0)
            - (if c == moves[k].source && c != READY_TO_ASSIGN then moves[k].amount else 0)
  {
    assert moves[..k + 1][..k] == moves[..k];
  }

  method MoveTargets(moves: seq<BudgetMove>, budgeted: Funds) returns (targets: Option<Funds>)
    ensures targets == TargetsOf(moves, budgeted)
  {
    hide NetChange, Mentioned;
    var delta: Funds := map[];
    NothingMoved();
    assert moves[..0] == [];
    for k := 0 to |moves|
      invariant delta.Keys == Mentioned(moves[..k])
      invariant forall c :: c in delta ==> delta[c] == NetChange(moves[..k], c)
      invariant forall c :: c !in delta ==> NetChange(moves[..k], c) == 0
    {
      var m := moves[k];
      forall c {
        OneMoreMove(moves, k, c);
      }
      delta := delta[m.destination := Lookup(delta, m.destination, 0) + m.amount];
      if m.source != READY_TO_ASSIGN {
        delta := delta[m.source := Lookup(delta, m.source, 0) - m.amount];
      }
    }
    assert moves[..|moves|] == moves;
    var changed := set c | c in delta && delta[c] != 0;
    assert changed == Changed(moves);
    if !(changed <= budgeted.Keys) {
      return None;
    }
    var absolutes := map c | c in changed :: budgeted[c] + delta[c];
    assert absolutes == TargetsOf(moves, budgeted).value;
    return Some(absolutes);
  }

  lemma NothingMoved()
    ensures Mentioned([]) == {}
    ensures forall c :: NetChange([], c) == 0
  {
  }

  /** What the moves bring a category, less what they take; nothing is taken from
      Ready-to-Assign by a write. */
  function Balance(moves: seq<BudgetMove>, c: CategoryId): Money {
    if c == READY_TO_ASSIGN then PaidTo(moves, c) else PaidTo(moves, c) - PulledFrom(moves, c)
  }

  /** The targets in full: there are none exactly when a category whose moves do not cancel
      out has no baseline; otherwise exactly those categories are written, each to its
      baseline and what the moves come to. */
  lemma {:induction false} TargetsIff(moves: seq<BudgetMove>, budgeted: Funds)
    ensures TargetsOf(moves, budgeted).None? <==> exists c :: Balance(moves, c) != 0 && c !in budgeted
    ensures TargetsOf(moves, budgeted).Some? ==>
              var targets := TargetsOf(moves, budgeted).value;
              && (forall c :: c in targets <==> Balance(moves, c) != 0)
              && forall c :: c in targets ==> targets[c] == budgeted[c] + Balance(moves, c)
  {
    forall c ensures Balance(moves, c) != 0 <==> c in Changed(moves) {
      if c !in Mentioned(moves) {
        UnmentionedUnchanged(moves, c);
      }
    }
  }

  // ---------- conservation ----------

  ghost function Sum(s: set<CategoryId>, f: CategoryId -> int): int {
    if s == {} then 0 else var x :| x in s; f(x) + Sum(s - {x}, f)
  }

  lemma {:induction false} SumRemove(s: set<CategoryId>, f: CategoryId -> int, x: CategoryId)
    requires x in s
    ensures Sum(s, f) == f(x) + Sum(s - {x}, f)
  {
    var y :| y in s && Sum(s, f) == f(y) + Sum(s - {y}, f);
    if y != x {
      SumRemove(s - {y}, f, x);
      SumRemove(s - {x}, f, y);
      assert s - {y} - {x} == s - {x} - {y};
    }
  }

  lemma {:induction false} SumSame(s: set<CategoryId>, f: CategoryId -> int, g: CategoryId -> int)
    requires forall c :: c in s ==> f(c) == g(c)
    ensures Sum(s, f) == Sum(s, g)
  {
    if s != {} {
      var x :| x in s;
      SumRemove(s, f, x);
      SumRemove(s, g, x);
      SumSame(s - {x}, f, g);
    }
  }

  /** Adding `a` at one point of a sum adds `a` to the sum. */
  lemma {:induction false} SumBump(
      s: set<CategoryId>, f: CategoryId -> int, g: CategoryId -> int, x: CategoryId, a: int)
    requires x in s && g(x) == f(x) + a && forall c :: c in s && c != x ==> g(c) == f(c)
    ensures Sum(s, g) == Sum(s, f) + a
  {
    SumRemove(s, f, x);
    SumRemove(s, g, x);
    SumSame(s - {x}, f, g);
  }

  lemma {:induction false} SumDropZeros(s: set<CategoryId>, t: set<CategoryId>, f: CategoryId -> int)
    requires t <= s && forall c :: c in s && c !in t ==> f(c) == 0
    ensures Sum(s, f) == Sum(t, f)
    decreases s
  {
    if c :| c in s && c !in t {
      SumRemove(s, f, c);
      SumDropZeros(s - {c}, t, f);
    } else {
      assert s == t;
    }
  }

  lemma {:induction false} NetSum(moves: seq<BudgetMove>, s: set<CategoryId>)
    requires Mentioned(moves) <= s
    ensures Sum(s, c => NetChange(moves, c)) == PulledFrom(moves, READY_TO_ASSIGN)
  {
    if moves == [] {
      SumDropZeros(s, {}, c => NetChange(moves, c));
    } else {
      var front, m := moves[..|moves| - 1], moves[|moves| - 1];
      NetSum(front, s);
      var before := (c: CategoryId) => NetChange(front, c);
      var paid := (c: CategoryId) => NetChange(front, c) + if c == m.destination then m.amount else 0;
      var after := (c: CategoryId) => NetChange(moves, c);
      SumBump(s, before, paid, m.destination, m.amount);
      if m.source == READY_TO_ASSIGN {
        SumSame(s, paid, after);
      } else {
        SumBump(s, paid, after, m.source, -m.amount);
      }
    }
  }

  /** What the writes add up to: over the written categories, target less baseline sums
      to what the moves drew from Ready-to-Assign, and no more. */
  lemma {:induction false} WritesConserveMoney(moves: seq<BudgetMove>, budgeted: Funds)
    requires TargetsOf(moves, budgeted).Some?
    ensures var targets := TargetsOf(moves, budgeted).value;
            && Sum(targets.Keys, c => Lookup(targets, c, 0) - Lookup(budgeted, c, 0))
               == PulledFrom(moves, READY_TO_ASSIGN)
            && (forall c :: c in targets ==> targets[c] != budgeted[c])
  {
    var targets := TargetsOf(moves, budgeted).value;
    NetSum(moves, Mentioned(moves));
    SumDropZeros(Mentioned(moves), Changed(moves), c => NetChange(moves, c));
    SumSame(Changed(moves), c => NetChange(moves, c), c => Lookup(targets, c, 0) - Lookup(budgeted, c, 0));
    assert targets.Keys == Changed(moves);
  }

  // ---------- retries ----------

  /** Absolute writes in the order they happen, repeats included. */
  ghost function AfterWrites(budget: Funds, targets: Funds, writes: seq<CategoryId>): Funds
    requires forall c :: c in writes ==> c in targets
  {
    if writes == [] then budget
    else
      var n := |writes| - 1;
      AfterWrites(budget, targets, writes[..n])[writes[n] := targets[writes[n]]]
  }

  lemma {:induction false} AfterWritesIs(budget: Funds, targets: Funds, writes: seq<CategoryId>)
    requires forall c :: c in writes ==> c in targets
    ensures var after := AfterWrites(budget, targets, writes);
            && (forall c :: c in after <==> c in budget || c in writes)
            && (forall c :: c in after ==> after[c] == if c in writes then targets[c] else budget[c])
  {
    if writes != [] {
      var n := |writes| - 1;
      AfterWritesIs(budget, targets, writes[..n]);
      assert writes == writes[..n] + [writes[n]];
    }
  }

  /** Each move made once, by hand. */
  ghost function EachMove(budget: Funds, moves: seq<BudgetMove>): Funds
    requires Mentioned(moves) <= budget.Keys
    ensures EachMove(budget, moves).Keys == budget.Keys
  {
    if moves == [] then budget
    else
      var m := moves[|moves| - 1];
      var before := EachMove(budget, moves[..|moves| - 1]);
      var raised := before[m.destination := before[m.destination] + m.amount];
      if m.source == READY_TO_ASSIGN then raised else raised[m.source := raised[m.source] - m.amount]
  }

  lemma {:induction false} EachMoveIs(budget: Funds, moves: seq<BudgetMove>, c: CategoryId)
    requires Mentioned(moves) <= budget.Keys && READY_TO_ASSIGN !in Mentioned(moves) && c in budget
    ensures EachMove(budget, moves)[c] == budget[c] + if c in Mentioned(moves) then NetChange(moves, c) else 0
  {
    if moves != [] {
      var front := moves[..|moves| - 1];
      EachMoveIs(budget, front, c);
      if c !in Mentioned(front) {
        UnmentionedUnchanged(front, c);
      }
    }
  }

  lemma {:induction false} UnmentionedUnchanged(moves: seq<BudgetMove>, c: CategoryId)
    requires c !in Mentioned(moves)
    ensures NetChange(moves, c) == 0
  {
    if moves != [] {
      UnmentionedUnchanged(moves[..|moves| - 1], c);
    }
  }

  /** Any order of at-least-once writes of the targets derived from the baseline ends
      in the budget that making each move exactly once gives. */
  lemma {:induction false} RetriedWritesEqualEachMoveOnce(
      moves: seq<BudgetMove>, budget: Funds, writes: seq<CategoryId>)
    requires Mentioned(moves) <= budget.Keys && READY_TO_ASSIGN !in Mentioned(moves)
    requires forall c :: c in writes <==> c in Changed(moves)
    ensures TargetsOf(moves, budget).Some?
    ensures AfterWrites(budget, TargetsOf(moves, budget).value, writes) == EachMove(budget, moves)
  {
    hide NetChange, Mentioned, EachMove, AfterWrites;
    var targets := TargetsOf(moves, budget).value;
    var after := AfterWrites(budget, targets, writes);
    AfterWritesIs(budget, targets, writes);
    forall c | c in budget ensures after[c] == EachMove(budget, moves)[c] {
      EachMoveIs(budget, moves, c);
    }
    assert after.Keys == EachMove(budget, moves).Keys;
  }
}
