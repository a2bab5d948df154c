/** Acting once against the shared table: what it takes of the receipts that are parked. */
module ReceiptRuns {
  import opened Prelude
  import opened ReceiptJoin
  import opened ReceiptStore

  /** The distinct ids the run parks. */
  ghost function ParkedIds(steps: seq<Step>): set<string> {
    set s | s in steps && s.ParkStep? :: s.receipt.id
  }

  /** No receipt is closed twice, and none is asked about twice. */
  ghost predicate ActsOnce(steps: seq<Step>, ttl: int) {
    forall id :: Closures(steps, ttl, id) <= 1 && Questions(steps, ttl, id) <= 1
  }

  /** Every join is handed the row as it stands. */
  ghost predicate Current(steps: seq<Step>, ttl: int) {
    forall id :: StaleJoins(steps, ttl, id) == 0
  }

  // ---------- within the cap ----------

  lemma ParkedIdsGrow(steps: seq<Step>)
    requires steps != []
    ensures var last := steps[|steps| - 1];
            ParkedIds(steps) == ParkedIds(steps[..|steps| - 1]) + if last.ParkStep? then {last.receipt.id} else {}
  {
    assert steps == steps[..|steps| - 1] + [steps[|steps| - 1]];
  }

  lemma {:induction false} IdsAfterStatus(rows: seq<Receipt>, id: string, status: ReceiptStatus)
    ensures Ids(SetStatus(rows, id, status)) == Ids(rows)
  {
    var after := SetStatus(rows, id, status);
    forall x ensures x in Ids(after) <==> x in Ids(rows) {
      if r :| r in after && r.id == x {
        var i :| 0 <= i < |after| && after[i] == r;
        assert rows[i] in rows;
      }
      if r :| r in rows && r.id == x {
        var i :| 0 <= i < |rows| && rows[i] == r;
        assert after[i] in after;
      }
    }
  }

  /** While the ids fit, every parked receipt stays in the table. */
  lemma {:induction false} NothingEvicted(steps: seq<Step>, ttl: int)
    requires |ParkedIds(steps)| <= LEDGER_CAP
    ensures Ids(Rows(steps, ttl)) == ParkedIds(steps)
  {
    if steps != [] {
      hide Bounded, ActionOf;
      var n := |steps| - 1;
      var front, rows := steps[..n], Rows(steps[..n], ttl);
      ParkedIdsGrow(steps);
      SubsetCardinality(ParkedIds(front), ParkedIds(steps));
      NothingEvicted(front, ttl);
      TableInvariant(front, ttl);
      match steps[n]
      case ParkStep(receipt) => ParkFits(rows, receipt, ParkedIds(steps));
      case Join(copy, outcome, now) =>
        var status := ResultingStatus(ActionOf(steps[n], ttl));
        if status.Some? {
          IdsAfterStatus(rows, copy.id, status.value);
        }
    }
  }

  lemma {:induction false} ParkFits(rows: seq<Receipt>, receipt: Receipt, ids: set<string>)
    requires UniqueIds(rows) && ids == Ids(rows) + {receipt.id} && |ids| <= LEDGER_CAP
    ensures Ids(ReceiptStore.Park(rows, receipt, LEDGER_CAP)) == ids
  {
    if r :| r in rows && r.id == receipt.id {
      assert receipt.id in Ids(rows);
      assert ids == Ids(rows);
    } else {
      assert receipt.id !in Ids(rows);
      IdCount(rows);
      assert |ids| == |rows| + 1;
      assert Bounded(rows + [receipt], LEDGER_CAP) == rows + [receipt];
    }
  }

  lemma {:induction false} AdmittedOnce(steps: seq<Step>, ttl: int, id: string)
    requires |ParkedIds(steps)| <= LEDGER_CAP
    ensures Admissions(steps, ttl, id) == if id in ParkedIds(steps) then 1 else 0
  {
    if steps != [] {
      hide Rows, Get, ParkedIds;
      var n := |steps| - 1;
      ParkedIdsGrow(steps);
      SubsetCardinality(ParkedIds(steps[..n]), ParkedIds(steps));
      AdmittedOnce(steps[..n], ttl, id);
      NothingEvicted(steps[..n], ttl);
      FoundIff(Rows(steps[..n], ttl), id);
    }
  }

  lemma FoundIff(rows: seq<Receipt>, id: string)
    ensures Get(rows, id).Some? <==> id in Ids(rows)
  {
  }

  /** While the ids fit, a receipt is closed, and asked about, at most once and once more
      for each stale copy of it that a join is handed. */
  lemma {:induction false} FitsActsOnce(steps: seq<Step>, ttl: int, id: string)
    requires |ParkedIds(steps)| <= LEDGER_CAP
    ensures Closures(steps, ttl, id) <= 1 + StaleJoins(steps, ttl, id)
    ensures Questions(steps, ttl, id) <= 1 + StaleJoins(steps, ttl, id)
  {
    hide *;
    AdmittedOnce(steps, ttl, id);
    OncePerAdmission(steps, ttl, id);
  }

  // ---------- one id more ----------

  function Id(k: nat): string {
    seq(k, _ => 'r')
  }

  function Fresh(k: nat): Receipt {
    Receipt(Id(k), 0, ReceiptStatus.Parked)
  }

  const MATCH_FIRST := Join(Fresh(0), ConfidentMatch("t"), 0)

  lemma IdsDiffer(j: nat, k: nat)
    ensures Id(j) == Id(k) <==> j == k
  {
    assert |Id(j)| == j && |Id(k)| == k;
  }

  /** The first receipt is parked and matched, and `m` more are parked after it. */
  function Parking(m: nat): seq<Step> {
    if m == 0 then [ParkStep(Fresh(0)), MATCH_FIRST] else Parking(m - 1) + [ParkStep(Fresh(m))]
  }

  function ParkedTable(m: nat): seq<Receipt> {
    if m == 0 then [Fresh(0).(status := Matched)] else ParkedTable(m - 1) + [Fresh(m)]
  }

  lemma {:induction false} ParkedAt(m: nat)
    ensures |ParkedTable(m)| == m + 1 && ParkedTable(m)[0] == Fresh(0).(status := Matched)
    ensures forall k :: 1 <= k <= m ==> ParkedTable(m)[k] == Fresh(k)
  {
    if m > 0 {
      ParkedAt(m - 1);
    }
  }

  lemma {:induction false} ParkedUnique(m: nat)
    ensures UniqueIds(ParkedTable(m)) && forall r :: r in ParkedTable(m) ==> |r.id| <= m
  {
    ParkedAt(m);
    forall i, j | 0 <= i < j < |ParkedTable(m)| ensures ParkedTable(m)[i].id != ParkedTable(m)[j].id {
      IdsDiffer(i, j);
    }
    forall r | r in ParkedTable(m) ensures |r.id| <= m {
      var k :| 0 <= k <= m && ParkedTable(m)[k] == r;
    }
  }

  /** One more step of a run. */
  lemma Then(front: seq<Step>, step: Step, ttl: int, id: string)
    ensures Rows(front + [step], ttl) == AfterStep(Rows(front, ttl), step, ttl)
    ensures Closures(front + [step], ttl, id) ==
            Closures(front, ttl, id)
            + if step.Join? && step.copy.id == id && ActionOf(step, ttl).Terminal() then 1 else 0
    ensures StaleJoins(front + [step], ttl, id) ==
            StaleJoins(front, ttl, id) + if Stale(Rows(front, ttl), step) && step.copy.id == id then 1 else 0
  {
    hide AfterStep, ActionOf, Stale;
    assert (front + [step])[..|front|] == front;
  }

  lemma StillCurrent(front: seq<Step>, step: Step, ttl: int)
    requires Current(front, ttl) && !Stale(Rows(front, ttl), step)
    ensures Current(front + [step], ttl)
  {
    hide StaleJoins, Rows, Closures;
    forall id ensures StaleJoins(front + [step], ttl, id) == 0 {
      assert StaleJoins(front, ttl, id) == 0;
      Then(front, step, ttl, id);
    }
  }

  lemma NothingStale(ttl: int)
    ensures Current([], ttl)
  {
  }

  lemma {:induction false} FirstTwo(ttl: int)
    ensures Rows(Parking(0), ttl) == ParkedTable(0) && Closures(Parking(0), ttl, Id(0)) == 1
    ensures Current(Parking(0), ttl)
  {
    hide Id, Bounded, Current, Stale;
    var first := ParkStep(Fresh(0));
    assert [] + [first] == [first];
    NothingStale(ttl);
    Then([], first, ttl, Id(0));
    StillCurrent([], first, ttl) by { ParksAreCurrent([], Fresh(0)); }
    assert [] + [Fresh(0)] == [Fresh(0)];
    Small([Fresh(0)]);
    assert AfterStep([], first, ttl) == [Fresh(0)];
    MatchedNow([Fresh(0)], ttl);
    Then([first], MATCH_FIRST, ttl, Id(0));
    StillCurrent([first], MATCH_FIRST, ttl);
    assert Parking(0) == [first] + [MATCH_FIRST];
  }

  lemma ParksAreCurrent(rows: seq<Receipt>, receipt: Receipt)
    ensures !Stale(rows, ParkStep(receipt))
  {
  }

  lemma Small(rows: seq<Receipt>)
    requires |rows| <= LEDGER_CAP
    ensures Bounded(rows, LEDGER_CAP) == rows
  {
  }

  lemma MatchedNow(rows: seq<Receipt>, ttl: int)
    requires Get(rows, Id(0)) == Some(Fresh(0))
    ensures ActionOf(MATCH_FIRST, ttl).Terminal() && !Stale(rows, MATCH_FIRST)
    ensures AfterStep(rows, MATCH_FIRST, ttl) == SetStatus(rows, Id(0), Matched)
  {
  }

  lemma ParkingStep(m: nat, ttl: int)
    requires m > 0
    ensures Rows(Parking(m), ttl) == ReceiptStore.Park(Rows(Parking(m - 1), ttl), Fresh(m), LEDGER_CAP)
    ensures Closures(Parking(m), ttl, Id(0)) == Closures(Parking(m - 1), ttl, Id(0))
    ensures Current(Parking(m - 1), ttl) ==> Current(Parking(m), ttl)
  {
    hide Current;
    Then(Parking(m - 1), ParkStep(Fresh(m)), ttl, Id(0));
    ParksAreCurrent(Rows(Parking(m - 1), ttl), Fresh(m));
    if Current(Parking(m - 1), ttl) {
      StillCurrent(Parking(m - 1), ParkStep(Fresh(m)), ttl);
    }
  }

  /** Up to the cap the table just grows. */
  lemma {:induction false} TableGrows(m: nat, ttl: int)
    requires m < LEDGER_CAP
    ensures Rows(Parking(m), ttl) == ParkedTable(m) && Closures(Parking(m), ttl, Id(0)) == 1
    ensures Current(Parking(m), ttl)
  {
    if m == 0 {
      FirstTwo(ttl);
    } else {
      hide Bounded, Id, Rows, Closures, Parking, Current;
      TableGrows(m - 1, ttl);
      ParkingStep(m, ttl);
      NotYetParked(m);
      ParkedAt(m);
      Small(ParkedTable(m));
    }
  }

  lemma NotYetParked(m: nat)
    requires m > 0
    ensures forall r :: r in ParkedTable(m - 1) ==> r.id != Fresh(m).id
  {
    hide ParkedTable, UniqueIds;
    ParkedUnique(m - 1);
    assert |Fresh(m).id| == m;
  }

  /** The receipt that overflows the table evicts the matched one. */
  lemma {:induction false} MatchedIsEvicted(ttl: int)
    ensures var rows := Rows(Parking(LEDGER_CAP), ttl);
            && UniqueIds(rows) && |rows| == LEDGER_CAP && Get(rows, Id(0)).None?
            && Closures(Parking(LEDGER_CAP), ttl, Id(0)) == 1
            && Current(Parking(LEDGER_CAP), ttl)
            && forall r :: r in rows ==> r.status.Open()
  {
    hide Bounded, Id, Rows, Closures, Parking, Get, UniqueIds, ParkedTable, ReceiptStore.Park, Current;
    var m := LEDGER_CAP;
    TableGrows(m - 1, ttl);
    ParkingStep(m, ttl);
    ParkOverflows(m);
    Overflowed();
  }

  lemma ParkOverflows(m: nat)
    requires m > 0
    ensures ReceiptStore.Park(ParkedTable(m - 1), Fresh(m), LEDGER_CAP) == Bounded(ParkedTable(m), LEDGER_CAP)
  {
    hide Bounded, Id;
    NotYetParked(m);
  }

  lemma {:induction false} Overflowed()
    ensures var kept := Bounded(ParkedTable(LEDGER_CAP), LEDGER_CAP);
            && UniqueIds(kept) && |kept| == LEDGER_CAP && Get(kept, Id(0)).None?
            && forall r :: r in kept ==> r.status.Open()
  {
    var m := LEDGER_CAP;
    var rows := ParkedTable(m);
    ParkedAt(m);
    assert rows[0].id == Id(0) && !rows[0].status.Open();
    assert forall k :: 1 <= k < |rows| ==> rows[k].status.Open();
    hide ParkedTable, Bounded, Id, UniqueIds, Get;
    ParkedUnique(m);
    BoundedKeepsOpen(rows, m);
    FullOfOpen(rows, Bounded(rows, m));
  }

  /** A full selection from a table with one closed row first loses that row. */
  lemma {:induction false} FullOfOpen(rows: seq<Receipt>, kept: seq<Receipt>)
    requires UniqueIds(rows) && UniqueIds(kept) && |kept| + 1 == |rows| && |rows| > 1
    requires !rows[0].status.Open() && forall k :: 1 <= k < |rows| ==> rows[k].status.Open()
    requires forall r :: r in kept ==> r in rows
    requires (exists lost :: lost in rows && lost !in kept && lost.status.Open()) ==>
               forall r :: r in kept ==> r.status.Open()
    ensures Get(kept, rows[0].id).None? && forall r :: r in kept ==> r.status.Open()
  {
    if rows[0] in kept {
      AllKept(rows, kept);
    }
    forall r | r in kept ensures r.id != rows[0].id && r.status.Open() {
      var k :| 0 <= k < |rows| && rows[k] == r;
      assert k != 0;
    }
  }

  /** A selection that loses no open row nor the one closed row loses nothing. */
  lemma {:induction false} AllKept(rows: seq<Receipt>, kept: seq<Receipt>)
    requires UniqueIds(rows) && UniqueIds(kept) && |kept| < |rows| && rows[0] in kept
    requires forall r :: r in kept ==> r in rows
    ensures exists k :: 1 <= k < |rows| && rows[k] !in kept
  {
    if forall k :: 1 <= k < |rows| ==> rows[k] in kept {
      forall x | x in Ids(rows) ensures x in Ids(kept) {
        var r :| r in rows && r.id == x;
        var k :| 0 <= k < |rows| && rows[k] == r;
      }
      IdCount(rows);
      IdCount(kept);
      SubsetCardinality(Ids(rows), Ids(kept));
    }
  }

  /** Park the first receipt again, and match it again. */
  function Evicting(): seq<Step> {
    Parking(LEDGER_CAP) + [ParkStep(Fresh(0)), MATCH_FIRST]
  }

  /** Readmitted to a table of open rows, the receipt displaces the oldest of them, and its
      match is acted on a second time. */
  lemma {:induction false} ActsTwice(ttl: int)
    ensures Closures(Evicting(), ttl, Id(0)) == 2 && Current(Evicting(), ttl)
  {
    hide Bounded, Id, Parking, Rows, Closures, Get, Current, Stale, StaleJoins;
    var before, again := Parking(LEDGER_CAP), ParkStep(Fresh(0));
    var rows := Rows(before, ttl);
    MatchedIsEvicted(ttl);
    Then(before, again, ttl, Id(0));
    ParksAreCurrent(rows, Fresh(0));
    StillCurrent(before, again, ttl);
    Readmitted(rows, Fresh(0));
    assert AfterStep(rows, again, ttl) == ReceiptStore.Park(rows, Fresh(0), LEDGER_CAP);
    MatchedNow(Rows(before + [again], ttl), ttl);
    Then(before + [again], MATCH_FIRST, ttl, Id(0));
    StillCurrent(before + [again], MATCH_FIRST, ttl);
    assert Evicting() == before + [again] + [MATCH_FIRST];
  }

  lemma {:induction false} Readmitted(rows: seq<Receipt>, receipt: Receipt)
    requires UniqueIds(rows) && |rows| == LEDGER_CAP && Get(rows, receipt.id).None? && receipt.status.Open()
    ensures Get(ReceiptStore.Park(rows, receipt, LEDGER_CAP), receipt.id) == Some(receipt)
  {
    hide Bounded;
    var table := rows + [receipt];
    var kept := Bounded(table, LEDGER_CAP);
    assert UniqueIds(table);
    BoundedKeepsOpen(table, LEDGER_CAP);
    assert table[LEDGER_CAP] == receipt;
    if receipt !in kept {
      assert kept[0] in table;
      var j :| 0 <= j < |table| && table[j] == kept[0];
      LostOpenIsFirst(table, LEDGER_CAP, LEDGER_CAP, j);
    }
    GetIs(kept, receipt);
  }

  lemma {:induction false} ParkingIds(m: nat)
    ensures ParkedIds(Parking(m)) == (set k: nat | k <= m :: Id(k))
  {
    if m == 0 {
      assert ParkedIds([ParkStep(Fresh(0)), MATCH_FIRST]) == {Id(0)};
    } else {
      ParkingIds(m - 1);
      ParkedIdsGrow(Parking(m));
      assert Parking(m)[..|Parking(m)| - 1] == Parking(m - 1);
    }
  }

  lemma {:induction false} FewIds(m: nat)
    ensures |(set k: nat | k <= m :: Id(k))| <= m + 1
  {
    if m == 0 {
      assert (set k: nat | k <= 0 :: Id(k)) == {Id(0)};
    } else {
      FewIds(m - 1);
      assert (set k: nat | k <= m :: Id(k)) == (set k: nat | k <= m - 1 :: Id(k)) + {Id(m)};
    }
  }

  lemma {:induction false} EvictingIds()
    ensures |ParkedIds(Evicting())| <= LEDGER_CAP + 1
  {
    hide Parking, Id;
    var ids := set k: nat | k <= LEDGER_CAP :: Id(k);
    ParkingIds(LEDGER_CAP);
    FewIds(LEDGER_CAP);
    assert Id(0) in ids;
    forall x | x in ParkedIds(Evicting()) ensures x in ids {
      var s :| s in Evicting() && s.ParkStep? && s.receipt.id == x;
      assert s in Parking(LEDGER_CAP) || s == ParkStep(Fresh(0));
    }
    SubsetCardinality(ParkedIds(Evicting()), ids);
  }

  /** Runs over at most `n` distinct receipts, in which every join is handed the row as it
      stands, close each at most once and ask about each at most once, whatever the
      verdicts and the times, if and only if the table has room for `n`. */
  lemma {:induction false} ActsOnceIff(n: nat, ttl: int)
    ensures (forall steps :: Current(steps, ttl) && |ParkedIds(steps)| <= n ==> ActsOnce(steps, ttl))
            <==> n <= 100
  {
    hide ParkedIds, ActsOnce, Evicting, Current;
    if n <= LEDGER_CAP {
      forall steps | Current(steps, ttl) && |ParkedIds(steps)| <= n ensures ActsOnce(steps, ttl) {
        CurrentActsOnce(steps, ttl);
      }
    } else {
      EvictingIds();
      NotOnce(ttl);
      assert Current(Evicting(), ttl) && |ParkedIds(Evicting())| <= n && !ActsOnce(Evicting(), ttl);
    }
  }

  lemma {:induction false} CurrentActsOnce(steps: seq<Step>, ttl: int)
    requires Current(steps, ttl) && |ParkedIds(steps)| <= LEDGER_CAP
    ensures ActsOnce(steps, ttl)
  {
    hide ParkedIds, Closures, Questions, StaleJoins;
    forall id ensures Closures(steps, ttl, id) <= 1 && Questions(steps, ttl, id) <= 1 {
      FitsActsOnce(steps, ttl, id);
    }
  }

  lemma NotOnce(ttl: int)
    ensures Current(Evicting(), ttl) && !ActsOnce(Evicting(), ttl)
  {
    hide Closures, Evicting, Current;
    ActsTwice(ttl);
  }

  // ---------- stale copies ----------

  /** One receipt is parked, and `s + 1` joins are handed it as it was parsed. */
  function Rejoining(s: nat): seq<Step> {
    if s == 0 then Parking(0) else Rejoining(s - 1) + [MATCH_FIRST]
  }

  lemma MatchIsTerminal(ttl: int)
    ensures MATCH_FIRST.Join? && MATCH_FIRST.copy.id == Id(0) && ActionOf(MATCH_FIRST, ttl).Terminal()
  {
  }

  ghost predicate StaleAtMost(steps: seq<Step>, ttl: int, s: nat) {
    forall id :: StaleJoins(steps, ttl, id) <= s
  }

  /** Every one of them acts, and all but the first on a stale copy. */
  lemma {:induction false} EveryRejoinActs(s: nat, ttl: int)
    ensures Closures(Rejoining(s), ttl, Id(0)) == s + 1 && StaleAtMost(Rejoining(s), ttl, s)
    ensures ParkedIds(Rejoining(s)) == {Id(0)}
  {
    if s == 0 {
      FirstJoinActs(ttl);
    } else {
      hide Closures, StaleAtMost, ParkedIds, Id, MATCH_FIRST, Parking;
      EveryRejoinActs(s - 1, ttl);
      OneMoreRejoin(Rejoining(s - 1), ttl, s - 1);
    }
  }

  lemma {:induction false} FirstJoinActs(ttl: int)
    ensures Closures(Parking(0), ttl, Id(0)) == 1 && StaleAtMost(Parking(0), ttl, 0)
    ensures ParkedIds(Parking(0)) == {Id(0)}
  {
    hide Rows, Closures, StaleJoins, ParkedIds, Parking, Id;
    FirstTwo(ttl);
    ParkingIds(0);
    FirstId();
  }

  lemma {:induction false} OneMoreRejoin(front: seq<Step>, ttl: int, s: nat)
    requires StaleAtMost(front, ttl, s)
    ensures StaleAtMost(front + [MATCH_FIRST], ttl, s + 1)
    ensures Closures(front + [MATCH_FIRST], ttl, Id(0)) == Closures(front, ttl, Id(0)) + 1
    ensures ParkedIds(front + [MATCH_FIRST]) == ParkedIds(front)
  {
    hide Rows, Closures, StaleJoins, ParkedIds, Id, Stale, ActionOf;
    MatchIsTerminal(ttl);
    Then(front, MATCH_FIRST, ttl, Id(0));
    forall id ensures StaleJoins(front + [MATCH_FIRST], ttl, id) <= s + 1 {
      assert StaleJoins(front, ttl, id) <= s;
      Then(front, MATCH_FIRST, ttl, id);
    }
    assert (front + [MATCH_FIRST])[..|front|] == front;
    ParkedIdsGrow(front + [MATCH_FIRST]);
  }

  lemma FirstId()
    ensures (set k: nat | k <= 0 :: Id(k)) == {Id(0)}
  {
  }

  /** The run parks no more receipts than the table holds, and hands no receipt's joins
      more than `s` stale copies. */
  ghost predicate AtMostStale(steps: seq<Step>, ttl: int, s: nat) {
    |ParkedIds(steps)| <= LEDGER_CAP && StaleAtMost(steps, ttl, s)
  }

  ghost predicate ClosesAtMost(steps: seq<Step>, ttl: int, m: nat) {
    forall id :: Closures(steps, ttl, id) <= m
  }

  /** A join works on the copy it is handed, and the first is handed the receipt as parsed,
      whatever the table says by then. Runs with at most `s` stale copies a receipt close
      each at most `m` times if and only if `m` exceeds `s`: every stale copy can act. */
  lemma {:induction false} StaleJoinsIff(s: nat, m: nat, ttl: int)
    ensures (forall steps :: AtMostStale(steps, ttl, s) ==> ClosesAtMost(steps, ttl, m)) <==> s + 1 <= m
  {
    hide AtMostStale, ClosesAtMost, Rejoining;
    if s + 1 <= m {
      forall steps | AtMostStale(steps, ttl, s) ensures ClosesAtMost(steps, ttl, m) {
        StaleBound(steps, ttl, s, m);
      }
    } else {
      StaleWitness(s, m, ttl);
      assert AtMostStale(Rejoining(s), ttl, s) && !ClosesAtMost(Rejoining(s), ttl, m);
    }
  }

  lemma {:induction false} StaleBound(steps: seq<Step>, ttl: int, s: nat, m: nat)
    requires AtMostStale(steps, ttl, s) && s + 1 <= m
    ensures ClosesAtMost(steps, ttl, m)
  {
    hide ParkedIds, Closures, Questions, StaleJoins;
    forall id ensures Closures(steps, ttl, id) <= m {
      FitsActsOnce(steps, ttl, id);
      assert StaleJoins(steps, ttl, id) <= s;
    }
  }

  lemma {:induction false} StaleWitness(s: nat, m: nat, ttl: int)
    requires m <= s
    ensures AtMostStale(Rejoining(s), ttl, s) && !ClosesAtMost(Rejoining(s), ttl, m)
  {
    hide ParkedIds, Closures, StaleJoins, Rejoining, Id;
    EveryRejoinActs(s, ttl);
    assert Closures(Rejoining(s), ttl, Id(0)) > m;
  }
}
