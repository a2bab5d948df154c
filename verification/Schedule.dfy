/** Known future outflows: what the monitor adds, per category, to the figures it assesses.
    The balancer reads its figures without them. */
module Schedule {
  import opened Prelude

  /** One line of a scheduled split; a missing or empty category is none. */
  datatype ScheduledLine = ScheduledLine(amount: Money, category: Option<CategoryId>, deleted: bool)

  /** A scheduled transaction; `due` is the day of its next occurrence. */
  datatype ScheduledTransaction = ScheduledTransaction(
    due: int, amount: Money, category: Option<CategoryId>, deleted: bool, lines: seq<ScheduledLine>)

  datatype Entry = Entry(category: CategoryId, amount: Money)

  predicate Named(category: Option<CategoryId>) {
    category.Some? && category.value != ""
  }

  function LineEntries(lines: seq<ScheduledLine>): seq<Entry> {
    if lines == [] then []
    else
      var last := lines[|lines| - 1];
      LineEntries(lines[..|lines| - 1])
      + if !last.deleted && Named(last.category) then [Entry(last.category.value, last.amount)] else []
  }

  /** The category lines of a transaction, split or not. */
  function EntriesOf(txn: ScheduledTransaction): seq<Entry> {
    if txn.lines != [] then LineEntries(txn.lines)
    else if Named(txn.category) then [Entry(txn.category.value, txn.amount)]
    else []
  }

  predicate Counts(txn: ScheduledTransaction, today: int, monthEnd: int) {
    !txn.deleted && today <= txn.due <= monthEnd
  }

  /** The outflow the entries hold for a category; an inflow holds none. */
  function OutflowOf(entries: seq<Entry>, c: CategoryId): nat {
    if entries == [] then 0
    else
      var last := entries[|entries| - 1];
      OutflowOf(entries[..|entries| - 1], c) + if last.category == c && last.amount < 0 then -last.amount else 0
  }

  function OutflowDue(scheduled: seq<ScheduledTransaction>, today: int, monthEnd: int, c: CategoryId): nat {
    if scheduled == [] then 0
    else
      var last := scheduled[|scheduled| - 1];
      OutflowDue(scheduled[..|scheduled| - 1], today, monthEnd, c)
      + if Counts(last, today, monthEnd) then OutflowOf(EntriesOf(last), c) else 0
  }

  method AddEntries(entries: seq<Entry>, before: map<CategoryId, Money>) returns (totals: map<CategoryId, Money>)
    requires forall c :: c in before ==> before[c] > 0
    ensures forall c :: Lookup(totals, c, 0) == Lookup(before, c, 0) + OutflowOf(entries, c)
    ensures forall c :: c in totals ==> totals[c] > 0
  {
    totals := before;
    assert entries[..0] == [];
    for k := 0 to |entries|
      invariant forall c :: Lookup(totals, c, 0) == Lookup(before, c, 0) + OutflowOf(entries[..k], c)
      invariant forall c :: c in totals ==> totals[c] > 0
    {
      var entry := entries[k];
      assert entries[..k + 1][..k] == entries[..k];
      if entry.amount >= 0 {
        continue;
      }
      totals := totals[entry.category := Lookup(totals, entry.category, 0) + -entry.amount];
    }
    assert entries[..|entries|] == entries;
  }

  /** The sum of each category's outflows due from today to the end of the month. No
      category has a negative sum, whatever inflows are scheduled. */
  method ScheduledRemaining(scheduled: seq<ScheduledTransaction>, today: int, monthEnd: int)
    returns (totals: map<CategoryId, Money>)
    ensures forall c :: Lookup(totals, c, 0) == OutflowDue(scheduled, today, monthEnd, c)
    ensures forall c :: c in totals ==> totals[c] > 0
  {
    totals := map[];
    assert scheduled[..0] == [];
    for k := 0 to |scheduled|
      invariant forall c :: Lookup(totals, c, 0) == OutflowDue(scheduled[..k], today, monthEnd, c)
      invariant forall c :: c in totals ==> totals[c] > 0
    {
      var txn := scheduled[k];
      assert scheduled[..k + 1][..k] == scheduled[..k];
      if !Counts(txn, today, monthEnd) {
        continue;
      }
      totals := AddEntries(EntriesOf(txn), totals);
    }
    assert scheduled[..|scheduled|] == scheduled;
  }

  // ---------- what counts ----------

  lemma {:induction false} OutflowConcat(a: seq<Entry>, b: seq<Entry>, c: CategoryId)
    ensures OutflowOf(a + b, c) == OutflowOf(a, c) + OutflowOf(b, c)
  {
    if b == [] {
      assert a + b == a;
    } else {
      assert (a + b)[..|a + b| - 1] == a + b[..|b| - 1];
      OutflowConcat(a, b[..|b| - 1], c);
    }
  }

  /** What a line takes from a category: its outflow, when it is that category's and not
      deleted. */
  function LineTakes(line: ScheduledLine, c: CategoryId): nat {
    if !line.deleted && line.category == Some(c) && c != "" && line.amount < 0 then -line.amount else 0
  }

  function LinesTake(lines: seq<ScheduledLine>, c: CategoryId): nat {
    if lines == [] then 0 else LinesTake(lines[..|lines| - 1], c) + LineTakes(lines[|lines| - 1], c)
  }

  lemma {:induction false} LinesTakeOutflow(lines: seq<ScheduledLine>, c: CategoryId)
    ensures OutflowOf(LineEntries(lines), c) == LinesTake(lines, c)
  {
    if lines != [] {
      var last := lines[|lines| - 1];
      var entries := if !last.deleted && Named(last.category) then [Entry(last.category.value, last.amount)] else [];
      LinesTakeOutflow(lines[..|lines| - 1], c);
      OutflowConcat(LineEntries(lines[..|lines| - 1]), entries, c);
      if entries != [] {
        OneEntry(entries[0], c);
      }
    }
  }

  /** One more scheduled transaction adds nothing when it is deleted or due outside the days
      left, nothing for an inflow, each of its lines' outflows when it is split, and its own
      when it is not. */
  lemma {:induction false} OneMoreScheduled(
      scheduled: seq<ScheduledTransaction>, txn: ScheduledTransaction, today: int, monthEnd: int, c: CategoryId)
    ensures OutflowDue(scheduled + [txn], today, monthEnd, c) - OutflowDue(scheduled, today, monthEnd, c)
         == if txn.deleted || txn.due < today || monthEnd < txn.due then 0
            else if txn.lines != [] then LinesTake(txn.lines, c)
            else if txn.category == Some(c) && c != "" && txn.amount < 0 then -txn.amount else 0
  {
    assert (scheduled + [txn])[..|scheduled|] == scheduled;
    if txn.lines != [] {
      LinesTakeOutflow(txn.lines, c);
    } else if Named(txn.category) {
      OneEntry(Entry(txn.category.value, txn.amount), c);
    }
  }

  lemma OneEntry(entry: Entry, c: CategoryId)
    ensures OutflowOf([entry], c) == if entry.category == c && entry.amount < 0 then -entry.amount else 0
  {
    assert [entry][..0] == [];
  }
}
