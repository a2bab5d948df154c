/** The circuit breaker's memory: a deduplicated, pruned tail of auto-actions, and the
    rolling caps the floor enforces through it. */
module AutoActionLedger {
  import opened Prelude
  import opened Windows
  import opened Floor

  const RUN_WINDOW := HOUR
  const DAY_WINDOW := DAY

  function WithoutId(entries: seq<Stamp>, id: string): (r: seq<Stamp>)
    ensures forall e :: e in r <==> e in entries && e.key != id
  {
    if entries == [] then []
    else
      var n := |entries| - 1;
      assert entries == entries[..n] + [entries[n]];
      WithoutId(entries[..n], id) + if entries[n].key != id then [entries[n]] else []
  }

  function Record(entries: seq<Stamp>, id: string, now: Instant, retention: int): seq<Stamp> {
    Alive(WithoutId(entries, id), now, retention) + [Stamp(id, now)]
  }

  function CountersAt(entries: seq<Stamp>, now: Instant, runWindow: int, dayWindow: int): Counters {
    Counters(|Alive(entries, now, runWindow)|, |Alive(entries, now, dayWindow)|)
  }

  ghost function Tail(log: seq<Stamp>, retention: int): seq<Stamp> {
    if log == [] then []
    else
      var n := |log| - 1;
      Record(Tail(log[..n], retention), log[n].key, log[n].at, retention)
  }

  /** The distinct transactions acted on within the window. */
  ghost function IdsWithin(log: seq<Stamp>, now: Instant, window: int): set<string> {
    set e | e in log && now - e.at < window :: e.key
  }

  ghost predicate DistinctIds(entries: seq<Stamp>) {
    forall i, j :: 0 <= i < j < |entries| ==> entries[i].key != entries[j].key
  }

  ghost function Ids(entries: seq<Stamp>): set<string> {
    set e | e in entries :: e.key
  }

  lemma {:induction false} DistinctCount(entries: seq<Stamp>)
    requires DistinctIds(entries)
    ensures |Ids(entries)| == |entries|
  {
    if entries != [] {
      var n := |entries| - 1;
      DistinctCount(entries[..n]);
      assert entries == entries[..n] + [entries[n]];
      assert Ids(entries) == Ids(entries[..n]) + {entries[n].key};
      assert entries[n].key !in Ids(entries[..n]);
    }
  }

  lemma {:induction false} WithoutIdDistinct(entries: seq<Stamp>, id: string)
    requires DistinctIds(entries)
    ensures DistinctIds(WithoutId(entries, id))
  {
    if entries != [] {
      var n := |entries| - 1;
      WithoutIdDistinct(entries[..n], id);
      var rest := WithoutId(entries[..n], id);
      forall i | 0 <= i < |rest| ensures rest[i].key != entries[n].key {
        assert rest[i] in entries[..n];
      }
    }
  }

  lemma {:induction false} AliveDistinct(entries: seq<Stamp>, now: Instant, window: int)
    requires DistinctIds(entries)
    ensures DistinctIds(Alive(entries, now, window))
  {
    if entries != [] {
      var n := |entries| - 1;
      AliveDistinct(entries[..n], now, window);
      var rest := Alive(entries[..n], now, window);
      forall i | 0 <= i < |rest| ensures rest[i].key != entries[n].key {
        AliveMember(entries[..n], now, window, rest[i]);
      }
    }
  }

  /** The tail holds each transaction once. */
  lemma {:induction false} TailDistinct(log: seq<Stamp>, retention: int)
    ensures DistinctIds(Tail(log, retention))
  {
    if log != [] {
      var n := |log| - 1;
      TailDistinct(log[..n], retention);
      var others := WithoutId(Tail(log[..n], retention), log[n].key);
      WithoutIdDistinct(Tail(log[..n], retention), log[n].key);
      AliveDistinct(others, log[n].at, retention);
      var kept := Alive(others, log[n].at, retention);
      forall i | 0 <= i < |kept| ensures kept[i].key != log[n].key {
        AliveMember(others, log[n].at, retention, kept[i]);
      }
    }
  }

  lemma {:induction false} RecordMember(entries: seq<Stamp>, id: string, now: Instant, retention: int, e: Stamp)
    ensures e in Record(entries, id, now, retention) <==>
            e == Stamp(id, now) || (e in entries && e.key != id && now - e.at < retention)
  {
    AliveMember(WithoutId(entries, id), now, retention, e);
  }

  lemma {:induction false} TailWasLogged(log: seq<Stamp>, retention: int, e: Stamp)
    requires e in Tail(log, retention)
    ensures e in log
  {
    var n := |log| - 1;
    RecordMember(Tail(log[..n], retention), log[n].key, log[n].at, retention, e);
    if e != log[n] {
      TailWasLogged(log[..n], retention, e);
    }
  }

  /** The tail has the transaction of `e`, at a time no earlier. */
  ghost predicate Kept(tail: seq<Stamp>, e: Stamp) {
    exists k :: k in tail && k.key == e.key && k.at >= e.at
  }

  /** Everything logged and still retained is in the tail at its latest time. */
  lemma {:induction false} TailKeepsLatest(log: seq<Stamp>, retention: int, i: nat)
    requires Chronological(log) && i < |log| && log[|log| - 1].at - log[i].at < retention
    ensures Kept(Tail(log, retention), log[i])
  {
    hide Record, WithoutId, Alive;
    var n := |log| - 1;
    var last, before := log[n], Tail(log[..n], retention);
    RecordMember(before, last.key, last.at, retention, last);
    if log[i].key == last.key {
      assert last in Tail(log, retention);
    } else {
      assert log[..n][i] == log[i] && log[..n][n - 1] == log[n - 1];
      TailKeepsLatest(log[..n], retention, i);
      var k :| k in before && k.key == log[i].key && k.at >= log[i].at;
      RecordMember(before, last.key, last.at, retention, k);
      assert k in Tail(log, retention);
    }
  }

  /** The counters count distinct transactions: what the tail reports for a window is
      the number of different ids the whole log holds in it. */
  lemma {:induction false} CountersCountDistinct(log: seq<Stamp>, retention: int, now: Instant, window: int)
    requires Chronological(log) && UpTo(log, now) && window <= retention
    ensures |Alive(Tail(log, retention), now, window)| == |IdsWithin(log, now, window)|
  {
    var tail := Tail(log, retention);
    var alive := Alive(tail, now, window);
    TailDistinct(log, retention);
    AliveDistinct(tail, now, window);
    DistinctCount(alive);
    forall id ensures id in Ids(alive) <==> id in IdsWithin(log, now, window) {
      SameIds(log, retention, now, window, id);
    }
    assert Ids(alive) == IdsWithin(log, now, window);
  }

  lemma {:induction false} SameIds(log: seq<Stamp>, retention: int, now: Instant, window: int, id: string)
    requires Chronological(log) && UpTo(log, now) && window <= retention
    ensures id in Ids(Alive(Tail(log, retention), now, window)) <==> id in IdsWithin(log, now, window)
  {
    var tail := Tail(log, retention);
    if id in IdsWithin(log, now, window) {
      var e :| e in log && now - e.at < window && e.key == id;
      var i :| 0 <= i < |log| && log[i] == e;
      TailKeepsLatest(log, retention, i);
      var k :| k in tail && k.key == e.key && k.at >= e.at;
      AliveMember(tail, now, window, k);
    }
    if id in Ids(Alive(tail, now, window)) {
      var e :| e in Alive(tail, now, window) && e.key == id;
      AliveMember(tail, now, window, e);
      TailWasLogged(log, retention, e);
    }
  }

  /** The floor lets some amount through on the counters this state reports. */
  ghost predicate Admits(entries: seq<Stamp>, now: Instant, policy: FloorPolicy) {
    exists amount :: CheckFloor(amount, CountersAt(entries, now, RUN_WINDOW, DAY_WINDOW), policy) == Allow
  }

  /** Every auto-action was allowed by the floor on the counters of its moment. */
  ghost predicate Gated(log: seq<Stamp>, policy: FloorPolicy) {
    forall i :: 0 <= i < |log| ==> Admits(Tail(log[..i], DAY_WINDOW), log[i].at, policy)
  }

  /** The distinct ids in (t - window, t]. */
  ghost function TrailingIds(log: seq<Stamp>, t: Instant, window: int): set<string> {
    set e | e in log && e.at <= t && t - e.at < window :: e.key
  }

  lemma {:induction false} GatedPrefix(log: seq<Stamp>, policy: FloorPolicy, n: nat)
    requires n <= |log| && Chronological(log) && Gated(log, policy)
    ensures Chronological(log[..n]) && Gated(log[..n], policy)
  {
    hide Tail, Admits;
    forall i | 0 <= i < n ensures Admits(Tail(log[..n][..i], DAY_WINDOW), log[..n][i].at, policy) {
      assert log[..n][..i] == log[..i] && log[..n][i] == log[i];
    }
  }

  lemma {:induction false} TrailingCap(log: seq<Stamp>, policy: FloorPolicy, t: Instant, window: int, cap: nat)
    requires Chronological(log) && Gated(log, policy)
    requires (window == RUN_WINDOW && cap == policy.perRunCap) || (window == DAY_WINDOW && cap == policy.perDayCap)
    ensures |TrailingIds(log, t, window)| <= cap
  {
    if log == [] {
      assert TrailingIds(log, t, window) == {};
    } else {
      hide Alive, Tail, Admits, TrailingIds, IdsWithin;
      var n := |log| - 1;
      var front, last := log[..n], log[n];
      GatedPrefix(log, policy, n);
      if last.at <= t && t - last.at < window {
        AdmitsBelowCaps(Tail(front, DAY_WINDOW), last.at, policy);
        CountersCountDistinct(front, DAY_WINDOW, last.at, window);
        var before := IdsWithin(front, last.at, window);
        TrailingWithLast(log, t, window);
        SubsetCardinality(TrailingIds(log, t, window), before + {last.key});
      } else {
        TrailingCap(front, policy, t, window, cap);
        TrailingWithoutLast(log, t, window);
      }
    }
  }

  lemma {:induction false} TrailingWithLast(log: seq<Stamp>, t: Instant, window: int)
    requires log != [] && log[|log| - 1].at <= t
    ensures TrailingIds(log, t, window) <=
            IdsWithin(log[..|log| - 1], log[|log| - 1].at, window) + {log[|log| - 1].key}
  {
    var front, last := log[..|log| - 1], log[|log| - 1];
    assert log == front + [last];
    forall id | id in TrailingIds(log, t, window) ensures id in IdsWithin(front, last.at, window) + {last.key} {
      var e :| e in log && e.at <= t && t - e.at < window && e.key == id;
      assert e == last || e in front;
    }
  }

  lemma {:induction false} TrailingWithoutLast(log: seq<Stamp>, t: Instant, window: int)
    requires log != [] && !(log[|log| - 1].at <= t && t - log[|log| - 1].at < window)
    ensures TrailingIds(log, t, window) == TrailingIds(log[..|log| - 1], t, window)
  {
    var front, last := log[..|log| - 1], log[|log| - 1];
    assert log == front + [last];
    forall id ensures id in TrailingIds(log, t, window) <==> id in TrailingIds(front, t, window) {
      if id in TrailingIds(log, t, window) {
        var e :| e in log && e.at <= t && t - e.at < window && e.key == id;
        assert e in front;
      }
    }
  }

  lemma AdmitsBelowCaps(entries: seq<Stamp>, now: Instant, policy: FloorPolicy)
    requires Admits(entries, now, policy)
    ensures |Alive(entries, now, RUN_WINDOW)| < policy.perRunCap
    ensures |Alive(entries, now, DAY_WINDOW)| < policy.perDayCap
  {
  }

  /** The breaker binds: over any trailing hour or day, ending at any instant, no more
      distinct auto-actions than the caps. */
  lemma {:induction false} BreakerBinds(log: seq<Stamp>, policy: FloorPolicy, t: Instant)
    requires Chronological(log) && Gated(log, policy)
    ensures |TrailingIds(log, t, HOUR)| <= policy.perRunCap
    ensures |TrailingIds(log, t, DAY)| <= policy.perDayCap
  {
    TrailingCap(log, policy, t, RUN_WINDOW, policy.perRunCap);
    TrailingCap(log, policy, t, DAY_WINDOW, policy.perDayCap);
  }
}
