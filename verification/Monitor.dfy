/** The alert dedupe ledger and the daily monitor pass that reads and writes it. */
module Monitor {
  import opened Prelude
  import opened Overspend

  datatype LedgerEntry = LedgerEntry(category: CategoryId, period: string, alert: PriorAlert)

  function Prior(entries: seq<LedgerEntry>, category: CategoryId, period: string): Option<PriorAlert> {
    if entries == [] then None
    else if entries[0].category == category && entries[0].period == period then Some(entries[0].alert)
    else Prior(entries[1..], category, period)
  }

  function Without(entries: seq<LedgerEntry>, category: CategoryId): (r: seq<LedgerEntry>)
    ensures forall e :: e in r <==> e in entries && e.category != category
  {
    if entries == [] then []
    else if entries[0].category == category then Without(entries[1..], category)
    else [entries[0]] + Without(entries[1..], category)
  }

  function Record(entries: seq<LedgerEntry>, category: CategoryId, period: string, alert: PriorAlert):
    seq<LedgerEntry>
  {
    Without(entries, category) + [LedgerEntry(category, period, alert)]
  }

  ghost predicate OnePerCategory(entries: seq<LedgerEntry>) {
    forall i, j :: 0 <= i < j < |entries| ==> entries[i].category != entries[j].category
  }

  lemma {:induction false} WithoutOnePerCategory(entries: seq<LedgerEntry>, category: CategoryId)
    requires OnePerCategory(entries)
    ensures OnePerCategory(Without(entries, category))
  {
    if entries != [] {
      WithoutOnePerCategory(entries[1..], category);
      forall e | e in Without(entries[1..], category) ensures e.category != entries[0].category {
        var i :| 0 <= i < |entries[1..]| && entries[1..][i] == e;
        assert entries[i + 1] == e;
      }
    }
  }

  /** Recording keeps one entry per category, whatever the periods. */
  lemma {:induction false} RecordOnePerCategory(
      entries: seq<LedgerEntry>, category: CategoryId, period: string, alert: PriorAlert)
    requires OnePerCategory(entries)
    ensures OnePerCategory(Record(entries, category, period, alert))
  {
    WithoutOnePerCategory(entries, category);
  }

  lemma {:induction false} PriorOfConcat(a: seq<LedgerEntry>, b: seq<LedgerEntry>, category: CategoryId, period: string)
    ensures Prior(a + b, category, period) ==
            if Prior(a, category, period).Some? then Prior(a, category, period) else Prior(b, category, period)
  {
    if a == [] {
      assert a + b == b;
    } else {
      assert (a + b)[1..] == a[1..] + b;
      PriorOfConcat(a[1..], b, category, period);
    }
  }

  lemma {:induction false} PriorOfWithout(
      entries: seq<LedgerEntry>, dropped: CategoryId, category: CategoryId, period: string)
    ensures Prior(Without(entries, dropped), category, period) ==
            if category == dropped then None else Prior(entries, category, period)
  {
    if entries != [] {
      PriorOfWithout(entries[1..], dropped, category, period);
      var rest := Without(entries[1..], dropped);
      assert ([entries[0]] + rest)[1..] == rest;
    }
  }

  /** What the ledger answers after a record: the new alert for its category and
      period, nothing for its category in any other period (an old period's entry
      is gone), and what it answered before for every other category. */
  lemma {:induction false} PriorAfterRecord(
      entries: seq<LedgerEntry>, category: CategoryId, period: string, alert: PriorAlert,
      asked: CategoryId, askedPeriod: string)
    ensures Prior(Record(entries, category, period, alert), asked, askedPeriod) ==
            if asked != category then Prior(entries, asked, askedPeriod)
            else if askedPeriod == period then Some(alert) else None
  {
    var entry := [LedgerEntry(category, period, alert)];
    PriorOfConcat(Without(entries, category), entry, asked, askedPeriod);
    PriorOfWithout(entries, category, asked, askedPeriod);
    assert entry[1..] == [];
  }

  // ---------- monitor passes ----------

  /** One category looked at on one day. */
  datatype Look = Look(spend: CategorySpend, clock: MonthClock)

  ghost predicate ValidLooks(looks: seq<Look>) {
    forall i :: 0 <= i < |looks| ==> looks[i].clock.Valid()
  }

  function Raises(entries: seq<LedgerEntry>, look: Look, period: string, threshold: Money): bool
    requires look.clock.Valid()
  {
    ShouldAlert(Assess(look.spend, look.clock, threshold), Prior(entries, look.spend.category, period), threshold)
  }

  function AfterLook(entries: seq<LedgerEntry>, look: Look, period: string, threshold: Money): seq<LedgerEntry>
    requires look.clock.Valid()
  {
    var a := Assess(look.spend, look.clock, threshold);
    if Raises(entries, look, period, threshold)
    then Record(entries, look.spend.category, period, PriorAlert(a.verdict, a.projected))
    else entries
  }

  /** The ledger after a run of looks, which may span many passes of one period. */
  ghost function LedgerAfter(entries: seq<LedgerEntry>, looks: seq<Look>, period: string, threshold: Money):
    seq<LedgerEntry>
    requires ValidLooks(looks)
  {
    if looks == [] then entries
    else
      var n := |looks| - 1;
      AfterLook(LedgerAfter(entries, looks[..n], period, threshold), looks[n], period, threshold)
  }

  /** The looks of a run that raised an alert, in order. */
  ghost function Alerts(entries: seq<LedgerEntry>, looks: seq<Look>, period: string, threshold: Money): seq<Look>
    requires ValidLooks(looks)
  {
    if looks == [] then []
    else
      var n := |looks| - 1;
      var before := Alerts(entries, looks[..n], period, threshold);
      if Raises(LedgerAfter(entries, looks[..n], period, threshold), looks[n], period, threshold)
      then before + [looks[n]] else before
  }

  /** What the last alert about the category said. */
  ghost function LastAlert(alerts: seq<Look>, category: CategoryId, threshold: Money): Option<PriorAlert>
    requires ValidLooks(alerts)
  {
    if alerts == [] then None
    else
      var last := alerts[|alerts| - 1];
      if last.spend.category == category then
        var a := Assess(last.spend, last.clock, threshold);
        Some(PriorAlert(a.verdict, a.projected))
      else LastAlert(alerts[..|alerts| - 1], category, threshold)
  }

  lemma {:induction false} AlertsAreValid(
      entries: seq<LedgerEntry>, looks: seq<Look>, period: string, threshold: Money)
    requires ValidLooks(looks)
    ensures ValidLooks(Alerts(entries, looks, period, threshold))
  {
    hide Raises;
    if looks != [] {
      AlertsAreValid(entries, looks[..|looks| - 1], period, threshold);
    }
  }

  /** A category is compared with its last alert, however many looks have passed since: after
      any run the ledger answers for it what that alert said, and before the first one what
      it did at the start. */
  lemma {:induction false} LastAlertStands(
      entries: seq<LedgerEntry>, looks: seq<Look>, period: string, threshold: Money, category: CategoryId)
    requires ValidLooks(looks)
    ensures ValidLooks(Alerts(entries, looks, period, threshold))
    ensures var last := LastAlert(Alerts(entries, looks, period, threshold), category, threshold);
            Prior(LedgerAfter(entries, looks, period, threshold), category, period)
            == if last.Some? then last else Prior(entries, category, period)
  {
    AlertsAreValid(entries, looks, period, threshold);
    if looks != [] {
      hide Raises, Assess, Record, Prior;
      var front, look := looks[..|looks| - 1], looks[|looks| - 1];
      LastAlertStands(entries, front, period, threshold, category);
      var ledger, alerts := LedgerAfter(entries, front, period, threshold), Alerts(entries, front, period, threshold);
      if Raises(ledger, look, period, threshold) {
        var a := Assess(look.spend, look.clock, threshold);
        PriorAfterRecord(ledger, look.spend.category, period, PriorAlert(a.verdict, a.projected), category, period);
        assert (alerts + [look])[..|alerts|] == alerts;
      }
    }
  }

  ghost function CountFor(looks: seq<Look>, category: CategoryId): nat {
    if looks == [] then 0
    else
      var n := |looks| - 1;
      CountFor(looks[..n], category) + if looks[n].spend.category == category then 1 else 0
  }

  ghost function AlertCount(
      entries: seq<LedgerEntry>, looks: seq<Look>, period: string, threshold: Money, category: CategoryId): nat
    requires ValidLooks(looks)
  {
    CountFor(Alerts(entries, looks, period, threshold), category)
  }

  /** The category keeps one set of figures over the run, in one month whose days
      only move forward; other categories are free. */
  ghost predicate Quiet(looks: seq<Look>, figures: CategorySpend) {
    && ValidLooks(looks)
    && (forall i :: 0 <= i < |looks| && looks[i].spend.category == figures.category ==> looks[i].spend == figures)
    && (forall i, j :: 0 <= i < j < |looks| ==>
          looks[i].clock.length == looks[j].clock.length && looks[i].clock.day <= looks[j].clock.day)
  }

  ghost predicate Flagged(looks: seq<Look>, category: CategoryId, threshold: Money)
    requires ValidLooks(looks)
  {
    exists i :: 0 <= i < |looks| && looks[i].spend.category == category
                && Assess(looks[i].spend, looks[i].clock, threshold).verdict != OK
  }

  /** The entry an alert on an earlier look of the run left behind. */
  ghost predicate LeftBehind(p: Option<PriorAlert>, looks: seq<Look>, figures: CategorySpend, threshold: Money)
    requires ValidLooks(looks)
  {
    exists i :: 0 <= i < |looks| && p.Some?
                && var a := Assess(figures, looks[i].clock, threshold);
                   p.value == PriorAlert(a.verdict, a.projected) && a.verdict != OK
  }

  lemma CountAppend(looks: seq<Look>, look: Look, category: CategoryId)
    ensures CountFor(looks + [look], category) ==
            CountFor(looks, category) + if look.spend.category == category then 1 else 0
  {
    assert (looks + [look])[..|looks|] == looks;
  }

  /** Against an alert left by an earlier look of a quiet run, nothing has worsened. */
  lemma {:induction false} NoSecondAlert(
      looks: seq<Look>, p: Option<PriorAlert>, threshold: Money, figures: CategorySpend)
    requires Quiet(looks, figures) && looks != [] && threshold >= 1
    requires LeftBehind(p, looks[..|looks| - 1], figures, threshold)
    ensures LeftBehind(p, looks, figures, threshold)
    ensures !ShouldAlert(Assess(figures, looks[|looks| - 1].clock, threshold), p, threshold)
  {
    var n := |looks| - 1;
    var i :| 0 <= i < n && p.Some? && var a := Assess(figures, looks[..n][i].clock, threshold);
                           p.value == PriorAlert(a.verdict, a.projected) && a.verdict != OK;
    assert looks[..n][i] == looks[i];
    QuietProjectionHardlyClimbs(figures, looks[i].clock, looks[n].clock);
  }

  lemma {:induction false} FlaggedPrefix(looks: seq<Look>, category: CategoryId, threshold: Money)
    requires ValidLooks(looks) && looks != []
    ensures var n := |looks| - 1;
            Flagged(looks, category, threshold) <==>
            || Flagged(looks[..n], category, threshold)
            || (looks[n].spend.category == category
                && Assess(looks[n].spend, looks[n].clock, threshold).verdict != OK)
  {
    var n := |looks| - 1;
    assert forall i :: 0 <= i < n ==> looks[..n][i] == looks[i];
    if Flagged(looks[..n], category, threshold) {
      var i :| 0 <= i < n && looks[..n][i].spend.category == category
               && Assess(looks[..n][i].spend, looks[..n][i].clock, threshold).verdict != OK;
      assert looks[..n][i] == looks[i];
    }
  }

  ghost predicate QuietSoFar(
      count: nat, now: Option<PriorAlert>, start: Option<PriorAlert>, looks: seq<Look>,
      threshold: Money, figures: CategorySpend)
    requires ValidLooks(looks)
  {
    && count <= 1
    && (count == 1 ==> LeftBehind(now, looks, figures, threshold))
    && (count == 0 ==> now == start)
    && (start.None? ==> (count == 1 <==> Flagged(looks, figures.category, threshold)))
  }

  lemma {:induction false} QuietRun(
      entries: seq<LedgerEntry>, looks: seq<Look>, period: string, threshold: Money, figures: CategorySpend)
    requires Quiet(looks, figures) && threshold >= 1
    ensures QuietSoFar(AlertCount(entries, looks, period, threshold, figures.category),
                       Prior(LedgerAfter(entries, looks, period, threshold), figures.category, period),
                       Prior(entries, figures.category, period), looks, threshold, figures)
  {
    if looks != [] {
      var n := |looks| - 1;
      var before, category := looks[..n], figures.category;
      QuietRun(entries, before, period, threshold, figures);
      var ledger := LedgerAfter(entries, before, period, threshold);
      var was := Prior(ledger, category, period);
      var a := Assess(looks[n].spend, looks[n].clock, threshold);
      CountAppend(Alerts(entries, before, period, threshold), looks[n], category);
      PriorAfterRecord(ledger, looks[n].spend.category, period, PriorAlert(a.verdict, a.projected), category, period);
      FlaggedPrefix(looks, category, threshold);
      if LeftBehind(was, before, figures, threshold) {
        NoSecondAlert(looks, was, threshold, figures);
      }
      if looks[n].spend == figures && a.verdict != OK {
        assert LeftBehind(Some(PriorAlert(a.verdict, a.projected)), looks, figures, threshold);
      }
    }
  }

  /** A quiet category alerts at most once a period, from any ledger and with any
      other categories recorded in between; and if it had no alert this period, it
      alerts exactly when some look at it is off track. */
  lemma {:induction false} QuietCategoryAlertsOnce(
      entries: seq<LedgerEntry>, looks: seq<Look>, period: string, threshold: Money, figures: CategorySpend)
    requires Quiet(looks, figures) && threshold >= 1
    ensures AlertCount(entries, looks, period, threshold, figures.category) <= 1
    ensures Prior(entries, figures.category, period).None? ==>
              (AlertCount(entries, looks, period, threshold, figures.category) == 1 <==>
               Flagged(looks, figures.category, threshold))
  {
    QuietRun(entries, looks, period, threshold, figures);
  }

  /** After an alert on it, a category alerts again in the period exactly when it is off
      track and has either become overspent since or projects more than the threshold
      higher; in another period it alerts whenever it is off track. */
  lemma {:induction false} AlertsAgainIff(
      entries: seq<LedgerEntry>, first: Look, next: Look, period: string, nextPeriod: string, threshold: Money)
    requires first.clock.Valid() && next.clock.Valid() && next.spend.category == first.spend.category
    requires Raises(entries, first, period, threshold)
    ensures var after := AfterLook(entries, first, period, threshold);
            var was, now := Assess(first.spend, first.clock, threshold), Assess(next.spend, next.clock, threshold);
            Raises(after, next, nextPeriod, threshold) <==>
              && now.verdict != OK
              && (nextPeriod != period
                  || (now.verdict == AlreadyOver && was.verdict != AlreadyOver)
                  || now.projected > was.projected + threshold)
  {
    hide Record, Prior;
    var was := Assess(first.spend, first.clock, threshold);
    PriorAfterRecord(entries, first.spend.category, period, PriorAlert(was.verdict, was.projected),
                     next.spend.category, nextPeriod);
  }

  /** Two milliunits spent of two budgeted, one milliunit overdrawn: the projection climbs
      by one milliunit from the fourteenth to the fifteenth of a 30-day month. */
  lemma ClimbingFigures(threshold: Money)
    ensures var figures := CategorySpend("c", "c", 2, -2, -1, 0);
            var was := Assess(figures, MonthClock(14, 30), threshold);
            var now := Assess(figures, MonthClock(15, 30), threshold);
            was.verdict == now.verdict == AlreadyOver && now.projected == was.projected + 1
  {
  }

  /** The threshold of one milliunit is needed: below it the projection's climb of
      one milliunit raises a second alert for unchanged figures. */
  lemma {:induction false} ChurnBelowOneMilliunit(period: string, threshold: Money)
    requires threshold <= 0
    ensures exists looks: seq<Look>, figures ::
              Quiet(looks, figures) && AlertCount([], looks, period, threshold, figures.category) == 2
  {
    hide Assess, Record;
    var figures := CategorySpend("c", "c", 2, -2, -1, 0);
    var first, second := Look(figures, MonthClock(14, 30)), Look(figures, MonthClock(15, 30));
    var looks := [first, second];
    ClimbingFigures(threshold);
    AlertsAgainIff([], first, second, period, period, threshold);
    assert looks[..1] == [first] && [first][..0] == [];
    assert LedgerAfter([], [first], period, threshold) == AfterLook([], first, period, threshold);
    assert Alerts([], [first], period, threshold) == [] + [first];
    CountAppend([], first, "c");
    CountAppend([first], second, "c");
    assert [first] + [second] == looks;
    assert Alerts([], looks, period, threshold) == looks;
    assert Quiet(looks, figures);
  }

  /** The assessments of a pass that are over or trending, in order. */
  function OffTrack(spends: seq<CategorySpend>, clock: MonthClock, threshold: Money): (r: seq<Assessment>)
    requires clock.Valid()
  {
    if spends == [] then []
    else
      var n := |spends| - 1;
      var a := Assess(spends[n], clock, threshold);
      OffTrack(spends[..n], clock, threshold) + if a.verdict.OK? then [] else [a]
  }

  ghost function LooksOf(spends: seq<CategorySpend>, clock: MonthClock): seq<Look> {
    seq(|spends|, i requires 0 <= i < |spends| => Look(spends[i], clock))
  }

  ghost function Names(looks: seq<Look>): seq<string> {
    seq(|looks|, i requires 0 <= i < |looks| => looks[i].spend.name)
  }

  /** One daily pass: assess every category, alert on what survives the dedupe,
      record each alert, and collect every off-track category for coverage. */
  method MonitorPass(
      spends: seq<CategorySpend>, clock: MonthClock, period: string, threshold: Money, entries: seq<LedgerEntry>)
    returns (ledger: seq<LedgerEntry>, alerted: seq<string>, needy: seq<Assessment>)
    requires clock.Valid()
    ensures ledger == LedgerAfter(entries, LooksOf(spends, clock), period, threshold)
    ensures alerted == Names(Alerts(entries, LooksOf(spends, clock), period, threshold))
    ensures needy == OffTrack(spends, clock, threshold)
  {
    hide Assess, Prior, Record;
    ledger, alerted, needy := entries, [], [];
    ghost var looks := LooksOf(spends, clock);
    for k := 0 to |spends|
      invariant ledger == LedgerAfter(entries, looks[..k], period, threshold)
      invariant alerted == Names(Alerts(entries, looks[..k], period, threshold))
      invariant needy == OffTrack(spends[..k], clock, threshold)
    {
      var spend := spends[k];
      assert spends[..k + 1][..k] == spends[..k];
      assert looks[..k + 1][..k] == looks[..k] && looks[..k + 1][k] == Look(spend, clock);
      var assessment := Assess(spend, clock, threshold);
      if assessment.verdict.OK? {
        continue;
      }
      needy := needy + [assessment];
      var prior := Prior(ledger, spend.category, period);
      if !ShouldAlert(assessment, prior, threshold) {
        continue;
      }
      ledger := Record(ledger, spend.category, period, PriorAlert(assessment.verdict, assessment.projected));
      alerted := alerted + [spend.name];
    }
    assert spends[..|spends|] == spends && looks[..|spends|] == looks;
  }
}
