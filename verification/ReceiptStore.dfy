/** The parked-receipt table: unique ids, bounded, closed receipts aging out first;
    and the join protocol run against it. */
module ReceiptStore {
  import opened Prelude
  import opened ReceiptJoin
  import StableSort

  const LEDGER_CAP: nat := 100

  function Ids(rows: seq<Receipt>): set<string> {
    set r | r in rows :: r.id
  }

  ghost predicate UniqueIds(rows: seq<Receipt>) {
    forall i, j :: 0 <= i < j < |rows| ==> rows[i].id != rows[j].id
  }

  function ClosedRows(rows: seq<Receipt>): (r: seq<Receipt>)
    ensures forall x :: x in r <==> x in rows && !x.status.Open()
  {
    if rows == [] then []
    else
      var n := |rows| - 1;
      assert rows == rows[..n] + [rows[n]];
      ClosedRows(rows[..n]) + if rows[n].status.Open() then [] else [rows[n]]
  }

  predicate OlderFirst(a: Receipt, b: Receipt) {
    a.parkedAt <= b.parkedAt
  }

  /** The rows whose id is not dropped, in table order. */
  function Without(rows: seq<Receipt>, drop: set<string>): (r: seq<Receipt>)
    ensures forall x :: x in r <==> x in rows && x.id !in drop
  {
    if rows == [] then []
    else
      var n := |rows| - 1;
      assert rows == rows[..n] + [rows[n]];
      Without(rows[..n], drop) + if rows[n].id in drop then [] else [rows[n]]
  }

  function Dropped(rows: seq<Receipt>, cap: nat): set<string>
    requires |rows| > cap
  {
    var oldest := StableSort.Sort(OlderFirst, ClosedRows(rows));
    Ids(oldest[..Min(|rows| - cap, |oldest|)])
  }

  function LastOf(rows: seq<Receipt>, cap: nat): seq<Receipt> {
    if |rows| <= cap then rows else rows[|rows| - cap..]
  }

  function Bounded(rows: seq<Receipt>, cap: nat): seq<Receipt> {
    if |rows| <= cap then rows else LastOf(Without(rows, Dropped(rows, cap)), cap)
  }

  function Park(rows: seq<Receipt>, receipt: Receipt, cap: nat): seq<Receipt> {
    if exists r :: r in rows && r.id == receipt.id then rows else Bounded(rows + [receipt], cap)
  }

  function SetStatus(rows: seq<Receipt>, id: string, status: ReceiptStatus): (r: seq<Receipt>)
    ensures |r| == |rows|
    ensures forall i :: 0 <= i < |rows| ==>
              r[i] == if rows[i].id == id then rows[i].(status := status) else rows[i]
  {
    seq(|rows|, i requires 0 <= i < |rows| => if rows[i].id == id then rows[i].(status := status) else rows[i])
  }

  function Get(rows: seq<Receipt>, id: string): (r: Option<Receipt>)
    ensures r.Some? ==> r.value in rows && r.value.id == id
    ensures r.None? ==> forall x :: x in rows ==> x.id != id
  {
    if rows == [] then None
    else if rows[0].id == id then Some(rows[0])
    else
      assert rows == [rows[0]] + rows[1..];
      Get(rows[1..], id)
  }

  function OpenRows(rows: seq<Receipt>): (r: seq<Receipt>)
    ensures forall x :: x in r <==> x in rows && x.status.Open()
  {
    if rows == [] then []
    else
      var n := |rows| - 1;
      assert rows == rows[..n] + [rows[n]];
      OpenRows(rows[..n]) + if rows[n].status.Open() then [rows[n]] else []
  }

  // ---------- counting rows ----------

  lemma {:induction false} SameIdSameRow(rows: seq<Receipt>, a: Receipt, b: Receipt)
    requires UniqueIds(rows) && a in rows && b in rows && a.id == b.id
    ensures a == b
  {
    var i :| 0 <= i < |rows| && rows[i] == a;
    var j :| 0 <= j < |rows| && rows[j] == b;
    assert rows[i].id == rows[j].id;
  }

  lemma {:induction false} IdCount(rows: seq<Receipt>)
    requires UniqueIds(rows)
    ensures |Ids(rows)| == |rows|
  {
    if rows != [] {
      var n := |rows| - 1;
      IdCount(rows[..n]);
      assert rows == rows[..n] + [rows[n]];
      assert Ids(rows) == Ids(rows[..n]) + {rows[n].id};
      assert rows[n].id !in Ids(rows[..n]);
    }
  }

  lemma {:induction false} WithoutUnique(rows: seq<Receipt>, drop: set<string>)
    requires UniqueIds(rows)
    ensures UniqueIds(Without(rows, drop))
    ensures Ids(Without(rows, drop)) == Ids(rows) - drop
  {
    if rows != [] {
      var n := |rows| - 1;
      WithoutUnique(rows[..n], drop);
      var rest := Without(rows[..n], drop);
      forall i | 0 <= i < |rest| ensures rest[i].id != rows[n].id {
        assert rest[i] in rows[..n];
      }
    }
  }

  lemma {:induction false} InsertUnique(x: Receipt, rows: seq<Receipt>)
    requires UniqueIds(rows) && x.id !in Ids(rows)
    ensures UniqueIds(StableSort.Insert(OlderFirst, x, rows))
  {
    if rows != [] && !OlderFirst(x, rows[0]) {
      InsertUnique(x, rows[1..]);
      var tail := StableSort.Insert(OlderFirst, x, rows[1..]);
      forall i | 0 <= i < |tail| ensures tail[i].id != rows[0].id {
        assert tail[i] in multiset(tail);
        assert tail[i] == x || tail[i] in rows[1..];
      }
    }
  }

  lemma {:induction false} SortUnique(rows: seq<Receipt>)
    requires UniqueIds(rows)
    ensures UniqueIds(StableSort.Sort(OlderFirst, rows))
  {
    if rows != [] {
      SortUnique(rows[1..]);
      forall r | r in StableSort.Sort(OlderFirst, rows[1..]) ensures r.id != rows[0].id {
        StableSort.SameElements(OlderFirst, rows[1..], r);
      }
      InsertUnique(rows[0], StableSort.Sort(OlderFirst, rows[1..]));
    }
  }

  lemma {:induction false} ClosedUnique(rows: seq<Receipt>)
    requires UniqueIds(rows)
    ensures UniqueIds(ClosedRows(rows))
  {
    if rows != [] {
      var n := |rows| - 1;
      ClosedUnique(rows[..n]);
      var rest := ClosedRows(rows[..n]);
      forall i | 0 <= i < |rest| ensures rest[i].id != rows[n].id {
        assert rest[i] in rows[..n];
      }
    }
  }

  lemma {:induction false} FirstAreOldest(rows: seq<Receipt>, m: nat, d: Receipt, k: Receipt)
    requires UniqueIds(rows) && StableSort.SortedBy(OlderFirst, rows) && m <= |rows|
    requires d in rows && k in rows && d.id in Ids(rows[..m]) && k.id !in Ids(rows[..m])
    ensures d.parkedAt <= k.parkedAt
  {
    var a :| a in rows[..m] && a.id == d.id;
    var i :| 0 <= i < m && rows[..m][i] == a;
    assert rows[i] in rows;
    SameIdSameRow(rows, a, d);
    var j :| 0 <= j < |rows| && rows[j] == k;
    assert forall t :: 0 <= t < m ==> rows[..m][t] == rows[t];
    assert OlderFirst(rows[i], rows[j]);
  }

  lemma {:induction false} PrefixIds(rows: seq<Receipt>, m: nat)
    requires UniqueIds(rows) && m <= |rows|
    ensures |Ids(rows[..m])| == m && Ids(rows[..m]) <= Ids(rows)
  {
    IdCount(rows[..m]);
    forall id | id in Ids(rows[..m]) ensures id in Ids(rows) {
      var r :| r in rows[..m] && r.id == id;
      assert r in rows;
    }
  }

  /** What is dropped: closed rows only, as many as overflow or all there are, and
      none younger than a closed row that stays. */
  lemma {:induction false} DroppedRows(rows: seq<Receipt>, cap: nat)
    requires UniqueIds(rows) && |rows| > cap
    ensures var drop := Dropped(rows, cap);
            && drop <= Ids(ClosedRows(rows))
            && |drop| == Min(|rows| - cap, |ClosedRows(rows)|)
            && forall d, k :: d in ClosedRows(rows) && k in ClosedRows(rows) && d.id in drop && k.id !in drop ==>
                 d.parkedAt <= k.parkedAt
  {
    hide UniqueIds, Ids, OlderFirst, StableSort.SortedBy;
    var closed := ClosedRows(rows);
    var oldest := StableSort.Sort(OlderFirst, closed);
    var m := Min(|rows| - cap, |oldest|);
    ClosedUnique(rows);
    SortUnique(closed);
    PrefixIds(oldest, m);
    SameIds(oldest, closed);
    OldestSorted(closed);
    forall d, k | d in closed && k in closed && d.id in Ids(oldest[..m]) && k.id !in Ids(oldest[..m])
      ensures d.parkedAt <= k.parkedAt
    {
      StableSort.SameElements(OlderFirst, closed, d);
      StableSort.SameElements(OlderFirst, closed, k);
      FirstAreOldest(oldest, m, d, k);
    }
  }

  lemma OldestSorted(rows: seq<Receipt>)
    ensures StableSort.SortedBy(OlderFirst, StableSort.Sort(OlderFirst, rows))
  {
    StableSort.Sorted(OlderFirst, rows);
  }

  lemma SameIds(a: seq<Receipt>, b: seq<Receipt>)
    requires multiset(a) == multiset(b)
    ensures Ids(a) == Ids(b)
  {
    forall r ensures r in a <==> r in b {
      assert r in multiset(a) <==> r in multiset(b);
    }
  }

  // ---------- the bound ----------

  /** `part` is `whole` with some rows left out. */
  ghost predicate Subsequence(part: seq<Receipt>, whole: seq<Receipt>) {
    part == []
    || (whole != []
        && (|| (part[|part| - 1] == whole[|whole| - 1]
                && Subsequence(part[..|part| - 1], whole[..|whole| - 1]))
            || Subsequence(part, whole[..|whole| - 1])))
  }

  lemma SubsequenceSkip(part: seq<Receipt>, whole: seq<Receipt>, r: Receipt)
    requires Subsequence(part, whole)
    ensures Subsequence(part, whole + [r])
  {
    assert (whole + [r])[..|whole|] == whole;
  }

  lemma SubsequenceTake(part: seq<Receipt>, whole: seq<Receipt>, r: Receipt)
    requires Subsequence(part, whole)
    ensures Subsequence(part + [r], whole + [r])
  {
    assert (whole + [r])[..|whole|] == whole && (part + [r])[..|part|] == part;
  }

  lemma {:induction false} WithoutInOrder(rows: seq<Receipt>, drop: set<string>)
    ensures Subsequence(Without(rows, drop), rows)
  {
    if rows != [] {
      var front, last := rows[..|rows| - 1], rows[|rows| - 1];
      var kept := Without(front, drop);
      WithoutInOrder(front, drop);
      assert rows == front + [last];
      if last.id in drop {
        assert Without(rows, drop) == kept;
        SubsequenceSkip(kept, front, last);
      } else {
        SubsequenceTake(kept, front, last);
      }
    }
  }

  lemma {:induction false} SuffixInOrder(part: seq<Receipt>, whole: seq<Receipt>, k: nat)
    requires k <= |part| && Subsequence(part, whole)
    ensures Subsequence(part[k..], whole)
  {
    if k < |part| {
      var cut, front, last := part[..|part| - 1], whole[..|whole| - 1], whole[|whole| - 1];
      assert whole == front + [last];
      if Subsequence(part, front) {
        hide Subsequence;
        SuffixInOrder(part, front, k);
        SubsequenceSkip(part[k..], front, last);
      } else {
        assert part[|part| - 1] == last && Subsequence(cut, front);
        hide Subsequence;
        SuffixInOrder(cut, front, k);
        SubsequenceTake(cut[k..], front, last);
        SuffixGrows(part, k);
      }
    } else {
      EmptyInOrder(part[k..], whole);
    }
  }

  lemma SuffixGrows(part: seq<Receipt>, k: nat)
    requires k < |part|
    ensures part[k..] == part[..|part| - 1][k..] + [part[|part| - 1]]
  {
  }

  lemma EmptyInOrder(part: seq<Receipt>, whole: seq<Receipt>)
    requires |part| == 0
    ensures Subsequence(part, whole)
  {
  }

  lemma LastInOrder(part: seq<Receipt>, whole: seq<Receipt>, cap: nat)
    requires Subsequence(part, whole)
    ensures Subsequence(LastOf(part, cap), whole)
  {
    if |part| > cap {
      SuffixInOrder(part, whole, |part| - cap);
    }
  }

  /** Bounding keeps the table's order: rows are only left out. */
  lemma {:induction false} BoundedInOrder(rows: seq<Receipt>, cap: nat)
    ensures if |rows| > cap then Subsequence(Bounded(rows, cap), rows) else Bounded(rows, cap) == rows
  {
    hide Subsequence, Dropped, LastOf;
    if |rows| > cap {
      var drop := Dropped(rows, cap);
      WithoutInOrder(rows, drop);
      LastInOrder(Without(rows, drop), rows, cap);
    }
  }

  /** Bounding a table of unique ids: the rows that stay keep their ids unique; there are
      min(size, cap) of them; an open row is lost only when no closed row is left; and a
      closed row is lost only before any younger one. */
  lemma {:induction false} BoundedKeepsOpen(rows: seq<Receipt>, cap: nat)
    requires UniqueIds(rows)
    ensures var kept := Bounded(rows, cap);
            && UniqueIds(kept)
            && |kept| == Min(|rows|, cap)
            && (forall r :: r in kept ==> r in rows)
            && ((exists lost :: lost in rows && lost !in kept && lost.status.Open()) ==>
                  forall r :: r in kept ==> r.status.Open())
            && (forall lost, r :: (lost in rows && lost !in kept && !lost.status.Open()
                                   && r in kept && !r.status.Open()) ==> lost.parkedAt <= r.parkedAt)
  {
    if |rows| > cap {
      var drop := Dropped(rows, cap);
      var rest := Without(rows, drop);
      RestFacts(rows, cap);
      if |rest| <= cap {
        assert Bounded(rows, cap) == rest;
      }
    }
  }

  /** The rows left by the drop: exactly the cap when enough closed rows could go, and
      otherwise only open ones. */
  lemma {:induction false} RestFacts(rows: seq<Receipt>, cap: nat)
    requires UniqueIds(rows) && |rows| > cap
    ensures var rest := Without(rows, Dropped(rows, cap));
            && UniqueIds(rest) && |rest| >= cap
            && (forall r :: r in rows && r !in rest ==> !r.status.Open())
            && (|rest| > cap ==> forall r :: r in rest ==> r.status.Open())
            && (forall lost, r :: (lost in rows && lost !in rest && r in rest && !r.status.Open()) ==>
                  lost.parkedAt <= r.parkedAt)
  {
    hide Dropped;
    var drop := Dropped(rows, cap);
    var rest := Without(rows, drop);
    DroppedRows(rows, cap);
    WithoutUnique(rows, drop);
    IdCount(rows);
    IdCount(rest);
    ClosedUnique(rows);
    IdCount(ClosedRows(rows));
    assert Ids(ClosedRows(rows)) <= Ids(rows);
    CardinalityOfDifference(Ids(rows), drop);
    forall r | r in rows && r !in rest ensures r in ClosedRows(rows) {
      var c :| c in ClosedRows(rows) && c.id == r.id;
      SameIdSameRow(rows, c, r);
    }
    if |rest| > cap {
      AllDropped(drop, Ids(ClosedRows(rows)));
      forall r | r in rest ensures r.status.Open() {
        assert r.id !in Ids(ClosedRows(rows));
        assert r !in ClosedRows(rows);
      }
    }
  }

  lemma {:induction false} CardinalityOfDifference(a: set<string>, b: set<string>)
    requires b <= a
    ensures |a - b| == |a| - |b|
  {
    assert a == (a - b) + b;
  }

  lemma {:induction false} AllDropped(drop: set<string>, closed: set<string>)
    requires drop <= closed && |drop| == |closed|
    ensures drop == closed
  {
    CardinalityOfDifference(closed, drop);
    assert closed - drop == {};
  }

  /** Two rows left standing come in the order they had. */
  lemma {:induction false} WithoutOrdered(rows: seq<Receipt>, drop: set<string>, p: nat, q: nat)
    returns (i: nat, j: nat)
    requires p < q < |Without(rows, drop)|
    ensures i < j < |rows| && rows[i] == Without(rows, drop)[p] && rows[j] == Without(rows, drop)[q]
  {
    var n := |rows| - 1;
    var front := Without(rows[..n], drop);
    if q < |front| {
      i, j := WithoutOrdered(rows[..n], drop, p, q);
    } else {
      assert front[p] in front;
      i :| 0 <= i < n && rows[..n][i] == front[p];
      j := n;
    }
  }

  lemma InSuffix(rows: seq<Receipt>, k: nat)
    requires k <= |rows|
    ensures forall p :: k <= p < |rows| ==> rows[p] in rows[k..]
  {
    forall p | k <= p < |rows| ensures rows[p] in rows[k..] {
      assert rows[k..][p - k] == rows[p];
    }
  }

  /** When open rows must go, they go from the front: a lost open row comes before every row
      that stays. */
  lemma {:induction false} LostOpenIsFirst(rows: seq<Receipt>, cap: nat, i: nat, j: nat)
    requires UniqueIds(rows) && i < |rows| && j < |rows|
    requires rows[i].status.Open() && rows[i] !in Bounded(rows, cap) && rows[j] in Bounded(rows, cap)
    ensures i < j
  {
    hide Dropped, Without, UniqueIds, ReceiptStatus.Open;
    assert |rows| > cap;
    var rest := Without(rows, Dropped(rows, cap));
    RestFacts(rows, cap);
    assert rows[i] in rest;
    assert Bounded(rows, cap) == LastOf(rest, cap);
    hide Bounded;
    var p, q := BeforeTheLast(rest, cap, rows[i], rows[j]);
    var a, b := WithoutOrdered(rows, Dropped(rows, cap), p, q);
    SameIndex(rows, a, i);
    SameIndex(rows, b, j);
  }

  lemma BeforeTheLast(rest: seq<Receipt>, cap: nat, lost: Receipt, kept: Receipt) returns (p: nat, q: nat)
    requires lost in rest && lost !in LastOf(rest, cap) && kept in LastOf(rest, cap)
    ensures p < q < |rest| && rest[p] == lost && rest[q] == kept
  {
    InSuffix(rest, |rest| - cap);
    p :| 0 <= p < |rest| && rest[p] == lost;
    var k :| 0 <= k < cap && rest[|rest| - cap..][k] == kept;
    q := |rest| - cap + k;
  }

  lemma SameIndex(rows: seq<Receipt>, a: nat, i: nat)
    requires UniqueIds(rows) && a < |rows| && i < |rows| && rows[a] == rows[i]
    ensures a == i
  {
    assert rows[a].id == rows[i].id;
  }

  // ---------- the protocol over the table ----------

  /** A join works on the copy of the receipt it was handed, fresh or not. */
  datatype Step =
    | ParkStep(receipt: Receipt)
    | Join(copy: Receipt, outcome: MatchOutcome, now: Instant)

  function ActionOf(step: Step, ttl: int): JoinAction {
    match step
    case ParkStep(_) => JoinAction.DoNothing
    case Join(copy, outcome, now) => PlanJoin(copy, outcome, now, ttl)
  }

  function AfterStep(rows: seq<Receipt>, step: Step, ttl: int): seq<Receipt> {
    match step
    case ParkStep(receipt) => Park(rows, receipt, LEDGER_CAP)
    case Join(copy, _, _) =>
      var status := ResultingStatus(ActionOf(step, ttl));
      if status.None? then rows else SetStatus(rows, copy.id, status.value)
  }

  /** The join was handed something other than the row as it stands: a status since
      changed, or a row since dropped. */
  predicate Stale(rows: seq<Receipt>, step: Step) {
    step.Join? && Get(rows, step.copy.id) != Some(step.copy)
  }

  function Rows(steps: seq<Step>, ttl: int): seq<Receipt> {
    if steps == [] then [] else AfterStep(Rows(steps[..|steps| - 1], ttl), steps[|steps| - 1], ttl)
  }

  /** How often `id` was admitted to the table. */
  ghost function Admissions(steps: seq<Step>, ttl: int, id: string): nat {
    if steps == [] then 0
    else
      var n := |steps| - 1;
      var admitted := steps[n].ParkStep? && steps[n].receipt.id == id && Get(Rows(steps[..n], ttl), id).None?;
      Admissions(steps[..n], ttl, id) + if admitted then 1 else 0
  }

  /** How often `id` was closed by a signal or a no-match note. */
  ghost function Closures(steps: seq<Step>, ttl: int, id: string): nat {
    if steps == [] then 0
    else
      var n := |steps| - 1;
      var acted := steps[n].Join? && steps[n].copy.id == id && ActionOf(steps[n], ttl).Terminal();
      Closures(steps[..n], ttl, id) + if acted then 1 else 0
  }

  /** How often a disambiguation question was asked about `id`. */
  ghost function Questions(steps: seq<Step>, ttl: int, id: string): nat {
    if steps == [] then 0
    else
      var n := |steps| - 1;
      var asked := steps[n].Join? && steps[n].copy.id == id && ActionOf(steps[n], ttl).AskDisambiguation?;
      Questions(steps[..n], ttl, id) + if asked then 1 else 0
  }

  /** How many joins were handed a stale copy of `id`. */
  ghost function StaleJoins(steps: seq<Step>, ttl: int, id: string): nat {
    if steps == [] then 0
    else
      var n := |steps| - 1;
      var stale := Stale(Rows(steps[..n], ttl), steps[n]) && steps[n].copy.id == id;
      StaleJoins(steps[..n], ttl, id) + if stale then 1 else 0
  }

  /** On every run the table has unique ids and at most a hundred rows. */
  lemma {:induction false} TableInvariant(steps: seq<Step>, ttl: int)
    ensures UniqueIds(Rows(steps, ttl)) && |Rows(steps, ttl)| <= LEDGER_CAP
  {
    if steps != [] {
      var n := |steps| - 1;
      TableInvariant(steps[..n], ttl);
      var rows := Rows(steps[..n], ttl);
      if steps[n].ParkStep? {
        var receipt := steps[n].receipt;
        if !exists r :: r in rows && r.id == receipt.id {
          assert UniqueIds(rows + [receipt]);
          BoundedKeepsOpen(rows + [receipt], LEDGER_CAP);
        }
      }
    }
  }

  /** The credit an id still holds: one unspent closure while its row is open. */
  ghost function OpenCredit(rows: seq<Receipt>, id: string): nat {
    var row := Get(rows, id);
    if row.Some? && row.value.status.Open() then 1 else 0
  }

  ghost function ParkedCredit(rows: seq<Receipt>, id: string): nat {
    var row := Get(rows, id);
    if row.Some? && row.value.status.Parked? then 1 else 0
  }

  lemma {:induction false} GetIs(rows: seq<Receipt>, r: Receipt)
    requires UniqueIds(rows) && r in rows
    ensures Get(rows, r.id) == Some(r)
  {
    SameIdSameRow(rows, r, Get(rows, r.id).value);
  }

  /** A park changes no surviving row, and adds at most the new one. */
  lemma {:induction false} ParkRow(rows: seq<Receipt>, receipt: Receipt, id: string)
    requires UniqueIds(rows)
    ensures var after := Get(Park(rows, receipt, LEDGER_CAP), id);
            after.None? || after == Get(rows, id) || (id == receipt.id && Get(rows, id).None? && after == Some(receipt))
  {
    if !exists r :: r in rows && r.id == receipt.id {
      var table := rows + [receipt];
      assert UniqueIds(table);
      BoundedKeepsOpen(table, LEDGER_CAP);
      var after := Get(Park(rows, receipt, LEDGER_CAP), id);
      if after.Some? {
        assert after.value in table;
        if after.value in rows {
          GetIs(rows, after.value);
        }
      }
    }
  }

  lemma {:induction false} SetStatusRow(rows: seq<Receipt>, id: string, status: ReceiptStatus, other: string)
    requires UniqueIds(rows) && Get(rows, id).Some?
    ensures Get(SetStatus(rows, id, status), other) ==
            if other == id then Some(Get(rows, id).value.(status := status)) else Get(rows, other)
  {
    var after := SetStatus(rows, id, status);
    assert UniqueIds(after);
    if Get(rows, other).Some? {
      var r := Get(rows, other).value;
      var i :| 0 <= i < |rows| && rows[i] == r;
      assert after[i] in after;
      GetIs(after, after[i]);
    } else {
      forall x | x in after ensures x.id != other {
        var i :| 0 <= i < |after| && after[i] == x;
        assert rows[i] in rows;
      }
    }
  }

  lemma {:induction false} NoSuchRow(rows: seq<Receipt>, id: string, status: ReceiptStatus)
    requires Get(rows, id).None?
    ensures SetStatus(rows, id, status) == rows
  {
    assert forall i :: 0 <= i < |rows| ==> rows[i] in rows;
  }

  /** One step of the two accounts of `id`: what a step spends, it took from the credit of
      an open row; only an admission or a stale join adds any. */
  lemma {:induction false} StepCredit(rows: seq<Receipt>, step: Step, ttl: int, id: string)
    requires UniqueIds(rows)
    ensures var after, action := AfterStep(rows, step, ttl), ActionOf(step, ttl);
            var admitted := if step.ParkStep? && step.receipt.id == id && Get(rows, id).None? then 1 else 0;
            var mine := step.Join? && step.copy.id == id;
            var stale := if Stale(rows, step) && mine then 1 else 0;
            && (if mine && action.Terminal() then 1 else 0) + OpenCredit(after, id)
                 <= OpenCredit(rows, id) + admitted + stale
            && (if mine && action.AskDisambiguation? then 1 else 0) + ParkedCredit(after, id)
                 <= ParkedCredit(rows, id) + admitted + stale
  {
    hide Park, SetStatus, Get;
    match step
    case ParkStep(receipt) =>
      ParkRow(rows, receipt, id);
    case Join(copy, outcome, now) =>
      var status := ResultingStatus(ActionOf(step, ttl));
      if status.Some? {
        if Get(rows, copy.id).Some? {
          SetStatusRow(rows, copy.id, status.value, id);
        } else {
          NoSuchRow(rows, copy.id, status.value);
        }
      }
  }

  /** Against the shared, evicting table: a receipt is closed at most once, and asked about
      at most once, for each time it is admitted and each join that is handed a stale copy
      of it; an open row is a closure not yet spent. */
  lemma {:induction false} OncePerAdmission(steps: seq<Step>, ttl: int, id: string)
    ensures Closures(steps, ttl, id) + OpenCredit(Rows(steps, ttl), id)
         <= Admissions(steps, ttl, id) + StaleJoins(steps, ttl, id)
    ensures Questions(steps, ttl, id) + ParkedCredit(Rows(steps, ttl), id)
         <= Admissions(steps, ttl, id) + StaleJoins(steps, ttl, id)
  {
    EmptyTable(id);
    hide AfterStep, ActionOf, Get, OpenCredit, ParkedCredit, UniqueIds, Stale;
    if steps != [] {
      var n := |steps| - 1;
      OncePerAdmission(steps[..n], ttl, id);
      TableInvariant(steps[..n], ttl);
      StepCredit(Rows(steps[..n], ttl), steps[n], ttl, id);
    }
  }

  lemma EmptyTable(id: string)
    ensures OpenCredit([], id) == ParkedCredit([], id) == 0
  {
  }
}
